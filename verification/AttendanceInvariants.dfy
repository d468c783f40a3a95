/**
 What every operation on the attendance tables keeps.

 `Consistent` needs no assumption about time. `Timely` adds what holds when timestamps follow the
 order in which the punches are serialised: a user's sessions are disjoint and in order, and every
 cached day row is exactly what a recomputation from its sessions would give.
 */
module AttendanceInvariants {
  import opened Base
  import opened Clock
  import opened Geofence
  import opened Attendance

  predicate RowConsistent(s: Session) {
    && (s.Open() <==> s.status.Active?)
    && (s.Open() <==> s.duration.None?)
    && (s.punchOut.Some? && s.duration.Some? ==>
          s.punchIn < s.punchOut.value && s.duration.value == WholeSeconds(s.punchOut.value - s.punchIn))
  }

  ghost predicate RowsConsistent(ss: seq<Session>) {
    forall i :: 0 <= i < |ss| ==> RowConsistent(ss[i])
  }

  ghost predicate OneOpen(ss: seq<Session>) {
    forall i, j :: 0 <= i < j < |ss| && ss[i].user == ss[j].user && ss[i].Open() ==> !ss[j].Open()
  }

  ghost predicate DaysExist(ss: seq<Session>, days: map<DayKey, Day>) {
    forall i :: 0 <= i < |ss| ==> ss[i].Day() in days
  }

  /** A cached row agrees with the recomputation in everything but, possibly, the first punch-in. */
  ghost predicate RowFollows(ss: seq<Session>, k: DayKey, row: Day) {
    && Aggregated(ss, k).count > 0
    && row.firstIn.Some?
    && row == Recomputed(ss, k, row).(firstIn := row.firstIn)
  }

  ghost predicate CacheFollows(ss: seq<Session>, days: map<DayKey, Day>) {
    forall k :: k in days ==> RowFollows(ss, k, days[k])
  }

  ghost predicate ConsistentRows(ss: seq<Session>, days: map<DayKey, Day>) {
    && RowsConsistent(ss)
    && OneOpen(ss)
    && DaysExist(ss, days)
    && CacheFollows(ss, days)
  }

  ghost predicate Consistent(t: Tables) { ConsistentRows(t.sessions, t.days) }

  ghost predicate Ordered(ss: seq<Session>) {
    forall i, j :: 0 <= i < j < |ss| && ss[i].user == ss[j].user ==>
      ss[i].punchOut.Some? && ss[i].punchOut.value <= ss[j].punchIn
  }

  ghost predicate NotAfter(ss: seq<Session>, clock: Instant) {
    forall i :: 0 <= i < |ss| ==> ss[i].punchIn <= clock && (ss[i].punchOut.Some? ==> ss[i].punchOut.value <= clock)
  }

  /** Each cached day row equals what recomputing it would store. */
  ghost predicate CacheExact(ss: seq<Session>, days: map<DayKey, Day>) {
    forall k :: k in days ==> days[k] == Recomputed(ss, k, days[k])
  }

  ghost predicate TimelyRows(ss: seq<Session>, days: map<DayKey, Day>, clock: Instant) {
    ConsistentRows(ss, days) && Ordered(ss) && NotAfter(ss, clock) && CacheExact(ss, days)
  }

  ghost predicate Timely(t: Tables, clock: Instant) { TimelyRows(t.sessions, t.days, clock) }

  lemma TimelyLater(t: Tables, clock: Instant, later: Instant)
    requires Timely(t, clock) && clock <= later
    ensures Timely(t, later)
  {
  }

  // ------------------------------------------------------- facts on aggregates

  lemma AggregatedAppend(ss: seq<Session>, s: Session, k: DayKey)
    ensures Aggregated(ss + [s], k) == if s.Day() == k then Add(Aggregated(ss, k), s) else Aggregated(ss, k)
  {
    assert (ss + [s])[..|ss|] == ss;
  }

  lemma {:induction false} AggregatedShape(ss: seq<Session>, k: DayKey)
    ensures Aggregated(ss, k).count > 0 <==> Aggregated(ss, k).firstIn.Some?
    ensures Aggregated(ss, k).count > 0 <==> exists i :: 0 <= i < |ss| && ss[i].Day() == k
    ensures Aggregated(ss, k).open > 0 <==> exists i :: 0 <= i < |ss| && ss[i].Day() == k && ss[i].Open()
    ensures Aggregated(ss, k).count == 0 ==> Aggregated(ss, k) == NoSessions
  {
    if ss != [] {
      var n := |ss| - 1;
      AggregatedShape(ss[..n], k);
      assert forall i :: 0 <= i < n ==> ss[..n][i] == ss[i];
      if ss[n].Day() != k {
        assert forall i :: 0 <= i < |ss| && ss[i].Day() == k ==> i < n && ss[..n][i].Day() == k;
      } else if !ss[n].Open() {
        assert forall i :: 0 <= i < |ss| && ss[i].Day() == k && ss[i].Open() ==> i < n && ss[..n][i].Open();
      }
    }
  }

  /** Changing a session does not reach the aggregates of another day. */
  lemma {:induction false} AggregatedElsewhere(ss: seq<Session>, i: nat, s: Session, k: DayKey)
    requires i < |ss| && ss[i].Day() != k && s.Day() != k
    ensures Aggregated(ss[i := s], k) == Aggregated(ss, k)
  {
    var n := |ss| - 1;
    var ss' := ss[i := s];
    if i == n {
      assert ss'[..n] == ss[..n];
    } else {
      AggregatedElsewhere(ss[..n], i, s, k);
      assert ss'[..n] == ss[..n][i := s];
    }
  }

  /** The earliest punch-in of a day is one of its sessions', and so never after all of them. */
  lemma {:induction false} FirstInWithin(ss: seq<Session>, k: DayKey, clock: Instant)
    requires forall i :: 0 <= i < |ss| && ss[i].Day() == k ==> ss[i].punchIn <= clock
    ensures Aggregated(ss, k).firstIn.Some? ==> Aggregated(ss, k).firstIn.value <= clock
  {
    if ss != [] {
      var n := |ss| - 1;
      FirstInWithin(ss[..n], k, clock);
    }
  }

  /** Seconds stored for the sessions of one day. */
  function StoredSeconds(ss: seq<Session>, k: DayKey): int {
    if ss == [] then 0 else
    var s := ss[|ss| - 1];
    StoredSeconds(ss[..|ss| - 1], k) +
      (if s.user == k.user && s.date == k.date && s.duration.Some? then s.duration.value else 0)
  }

  predicate OnDay(s: Session, k: DayKey) { s.user == k.user && s.date == k.date }

  /** The earliest punch-in, the latest punch-out and the sum of the stored seconds, over the sessions of one day. */
  lemma {:induction false} AggregatedMeans(ss: seq<Session>, k: DayKey)
    ensures var a := Aggregated(ss, k);
      && a.total == StoredSeconds(ss, k)
      && (a.firstIn.None? <==> forall s :: s in ss ==> !OnDay(s, k))
      && (a.firstIn.Some? ==> exists s :: s in ss && OnDay(s, k) && s.punchIn == a.firstIn.value)
      && (forall s :: s in ss && OnDay(s, k) ==> a.firstIn.Some? && a.firstIn.value <= s.punchIn)
      && (a.lastOut.Some? ==> exists s :: s in ss && OnDay(s, k) && s.punchOut == a.lastOut)
      && (forall s :: s in ss && OnDay(s, k) && s.punchOut.Some? ==>
            a.lastOut.Some? && s.punchOut.value <= a.lastOut.value)
      && (a.open > 0 <==> exists s :: s in ss && OnDay(s, k) && s.Open())
      && (a.count > 0 <==> exists s :: s in ss && OnDay(s, k))
  {
    if ss != [] {
      var n := |ss| - 1;
      AggregatedMeans(ss[..n], k);
      assert ss == ss[..n] + [ss[n]];
      assert forall s :: s in ss <==> s in ss[..n] || s == ss[n];
      assert ss[n].Day() == k <==> OnDay(ss[n], k);
    }
  }

  /**
   What recomputing a day row stores: PRESENT while a session of the day runs, CHECKED_OUT after one, ABSENT without
   any; the sum of the stored seconds; first punch-in and last punch-out; and the lateness there was.
   */
  lemma RecomputedMeans(ss: seq<Session>, k: DayKey, row: Day)
    ensures var r := Recomputed(ss, k, row);
      && (r.status == Present <==> exists s :: s in ss && OnDay(s, k) && s.Open())
      && (r.status == Absent <==> forall s :: s in ss ==> !OnDay(s, k))
      && r.total == StoredSeconds(ss, k) && r.late == row.late
      && (r.firstIn.None? <==> forall s :: s in ss ==> !OnDay(s, k))
      && (forall s :: s in ss && OnDay(s, k) ==> r.firstIn.Some? && r.firstIn.value <= s.punchIn)
      && (r.firstIn.Some? ==> exists s :: s in ss && OnDay(s, k) && s.punchIn == r.firstIn.value)
      && (forall s :: s in ss && OnDay(s, k) && s.punchOut.Some? ==>
            r.lastOut.Some? && s.punchOut.value <= r.lastOut.value)
      && (r.lastOut.Some? ==> exists s :: s in ss && OnDay(s, k) && s.punchOut == r.lastOut)
  {
    AggregatedMeans(ss, k);
    hide Aggregated;
  }

  // --------------------------------------------------------- single operations

  lemma AfterPunchInConsistent(t: Tables, ws: Workspace, now: Instant, p: Punch)
    requires Consistent(t) && OpenSession(t.sessions, p.user).None?
    ensures Consistent(AfterPunchIn(t, ws, now, p))
  {
    var t' := AfterPunchIn(t, ws, now, p);
    var s := NewSession(p.user, LocalDate(now, ws.offset), now);
    forall k | k in t'.days
      ensures RowFollows(t'.sessions, k, t'.days[k])
    {
      AggregatedAppend(t.sessions, s, k);
      AggregatedShape(t.sessions, k);
    }
  }

  lemma WithClosedConsistent(t: Tables, i: nat, end: Instant, how: SessionStatus)
    requires Consistent(t) && i < |t.sessions| && t.sessions[i].Open()
    requires t.sessions[i].punchIn < end && !how.Active?
    ensures Consistent(WithClosed(t, i, end, how))
  {
    var t' := WithClosed(t, i, end, how);
    var s := t'.sessions[i];
    forall k | k in t'.days
      ensures RowFollows(t'.sessions, k, t'.days[k])
    {
      AggregatedShape(t'.sessions, k);
      if k != s.Day() { AggregatedElsewhere(t.sessions, i, s, k); }
    }
  }

  /** The patched row is what recomputing it would store, if nothing of that day began later than `now`. */
  lemma PatchedRowExact(t: Tables, ws: Workspace, now: Instant, p: Punch, k: DayKey)
    requires forall i :: 0 <= i < |t.sessions| && t.sessions[i].user == p.user ==> t.sessions[i].punchIn <= now
    requires CacheExact(t.sessions, t.days) && CacheFollows(t.sessions, t.days) && DaysExist(t.sessions, t.days)
    requires k in AfterPunchIn(t, ws, now, p).days
    ensures var t' := AfterPunchIn(t, ws, now, p); t'.days[k] == Recomputed(t'.sessions, k, t'.days[k])
  {
    AggregatedAppend(t.sessions, NewSession(p.user, LocalDate(now, ws.offset), now), k);
    AggregatedShape(t.sessions, k);
    if k.user == p.user { FirstInWithin(t.sessions, k, now); }
    if k in t.days { assert RowFollows(t.sessions, k, t.days[k]); }
  }

  lemma AfterPunchInTimely(t: Tables, ws: Workspace, now: Instant, p: Punch, clock: Instant)
    requires Timely(t, clock) && clock <= now && OpenSession(t.sessions, p.user).None?
    ensures Timely(AfterPunchIn(t, ws, now, p), now)
  {
    var t' := AfterPunchIn(t, ws, now, p);
    AfterPunchInConsistent(t, ws, now, p);
    assert NotAfter(t.sessions, now);
    assert CacheExact(t'.sessions, t'.days) by {
      forall k | k in t'.days
        ensures t'.days[k] == Recomputed(t'.sessions, k, t'.days[k])
      {
        PatchedRowExact(t, ws, now, p, k);
      }
    }
    AppendedOrdered(t.sessions, NewSession(p.user, LocalDate(now, ws.offset), now), clock);
  }

  lemma AppendedOrdered(ss: seq<Session>, s: Session, clock: Instant)
    requires Ordered(ss) && NotAfter(ss, clock) && clock <= s.punchIn && s.Open()
    requires forall i :: 0 <= i < |ss| && ss[i].user == s.user ==> !ss[i].Open()
    ensures Ordered(ss + [s]) && NotAfter(ss + [s], s.punchIn)
  {
  }

  lemma WithClosedTimely(t: Tables, i: nat, end: Instant, how: SessionStatus, clock: Instant)
    requires Timely(t, clock) && i < |t.sessions| && t.sessions[i].Open()
    requires t.sessions[i].punchIn < end <= clock && !how.Active?
    ensures Timely(WithClosed(t, i, end, how), clock)
  {
    var t' := WithClosed(t, i, end, how);
    var s := t'.sessions[i];
    WithClosedConsistent(t, i, end, how);
    forall k | k in t'.days
      ensures t'.days[k] == Recomputed(t'.sessions, k, t'.days[k])
    {
      if k != s.Day() { AggregatedElsewhere(t.sessions, i, s, k); }
    }
  }

  /** The ids still to be closed are open, distinct and started early enough for the cap. */
  ghost predicate Closable(ss: seq<Session>, ids: seq<nat>, hours: int, clock: Instant) {
    && (forall a :: 0 <= a < |ids| ==> ids[a] < |ss| && ss[ids[a]].Open() && ss[ids[a]].punchIn + Hours(hours) <= clock)
    && (forall a, b :: 0 <= a < b < |ids| ==> ids[a] < ids[b])
  }

  lemma StaleClosable(ss: seq<Session>, hours: int, now: Instant)
    ensures Closable(ss, StaleSessions(ss, now - Hours(hours)), hours, now)
  {
  }

  lemma ClosableTail(t: Tables, ids: seq<nat>, hours: int, clock: Instant)
    requires Closable(t.sessions, ids, hours, clock) && ids != []
    ensures Closable(AutoClosedOne(t, ids[0], hours).sessions, ids[1..], hours, clock)
  {
  }

  lemma AutoClosedOneConsistent(t: Tables, i: nat, hours: int)
    requires Consistent(t) && i < |t.sessions| && t.sessions[i].Open() && 0 < hours
    ensures Consistent(AutoClosedOne(t, i, hours))
  {
    hide WithClosed, ConsistentRows;
    WithClosedConsistent(t, i, t.sessions[i].punchIn + Hours(hours), AutoClosed);
  }

  lemma AutoClosedOneTimely(t: Tables, i: nat, hours: int, clock: Instant)
    requires Timely(t, clock) && i < |t.sessions| && t.sessions[i].Open() && 0 < hours
    requires t.sessions[i].punchIn + Hours(hours) <= clock
    ensures Timely(AutoClosedOne(t, i, hours), clock)
  {
    hide WithClosed, TimelyRows;
    WithClosedTimely(t, i, t.sessions[i].punchIn + Hours(hours), AutoClosed, clock);
  }

  lemma {:induction false} AutoClosedAllConsistent(t: Tables, ids: seq<nat>, hours: int, clock: Instant)
    requires Consistent(t) && Closable(t.sessions, ids, hours, clock) && 0 < hours
    ensures Consistent(AutoClosedAll(t, ids, hours))
    decreases |ids|
  {
    hide WithClosed, RowFollows, Aggregated, CacheFollows, OneOpen;
    if ids != [] {
      AutoClosedOneConsistent(t, ids[0], hours);
      ClosableTail(t, ids, hours, clock);
      AutoClosedAllConsistent(AutoClosedOne(t, ids[0], hours), ids[1..], hours, clock);
    }
  }

  lemma {:induction false} AutoClosedAllTimely(t: Tables, ids: seq<nat>, hours: int, clock: Instant)
    requires Timely(t, clock) && Closable(t.sessions, ids, hours, clock) && 0 < hours
    ensures Timely(AutoClosedAll(t, ids, hours), clock)
    decreases |ids|
  {
    hide WithClosed, RowFollows, Aggregated, CacheFollows, OneOpen;
    if ids != [] {
      AutoClosedOneTimely(t, ids[0], hours, clock);
      ClosableTail(t, ids, hours, clock);
      AutoClosedAllTimely(AutoClosedOne(t, ids[0], hours), ids[1..], hours, clock);
    }
  }

  // ---------------------------------------------------------- steps and runs

  /** A punch-in either leaves sessions and days alone or opens one session for a user who had none open. */
  lemma PunchInEffect(t: Tables, metric: Metric, env: Env, p: Punch)
    ensures var t' := PunchIn(t, metric, env, p).0;
      || (t'.sessions == t.sessions && t'.days == t.days)
      || (env.workspace.Some? && OpenSession(t.sessions, p.user).None? &&
           t' == AfterPunchIn(t, env.workspace.value, env.now, p))
  {
  }

  /** A punch-out either leaves sessions and days alone or closes the user's open session after it began. */
  lemma PunchOutEffect(t: Tables, metric: Metric, env: Env, p: Punch)
    ensures var t' := PunchOut(t, metric, env, p).0;
      var open := OpenSession(t.sessions, p.user);
      || (t'.sessions == t.sessions && t'.days == t.days)
      || (open.Some? && t.sessions[open.value].punchIn < env.now && t' == AfterPunchOut(t, open.value, env.now, p))
  {
  }

  lemma {:induction false} PunchInConsistent(t: Tables, metric: Metric, env: Env, p: Punch)
    requires Consistent(t)
    ensures Consistent(PunchIn(t, metric, env, p).0)
  {
    PunchInEffect(t, metric, env, p);
    if env.workspace.Some? && OpenSession(t.sessions, p.user).None? {
      AfterPunchInConsistent(t, env.workspace.value, env.now, p);
    }
  }

  lemma PunchOutConsistent(t: Tables, metric: Metric, env: Env, p: Punch)
    requires Consistent(t)
    ensures Consistent(PunchOut(t, metric, env, p).0)
  {
    PunchOutEffect(t, metric, env, p);
    var open := OpenSession(t.sessions, p.user);
    if open.Some? && t.sessions[open.value].punchIn < env.now {
      WithClosedConsistent(t, open.value, env.now, Completed);
    }
  }

  lemma AutoClosePassConsistent(t: Tables, workspace: Option<Workspace>, now: Instant)
    requires Consistent(t)
    ensures Consistent(AutoClosePass(t, workspace, now))
  {
    hide AutoClosedAll, StaleSessions, Closable, ConsistentRows;
    if workspace.Some? {
      var hours := workspace.value.autoCloseHours;
      var stale := StaleSessions(t.sessions, now - Hours(hours));
      StaleClosable(t.sessions, hours, now);
      assert AutoClosePass(t, workspace, now) == AutoClosedAll(t, stale, hours);
      AutoClosedAllConsistent(t, stale, hours, now);
    }
  }

  lemma StepConsistent(t: Tables, metric: Metric, step: Step)
    requires Consistent(t)
    ensures Consistent(Next(t, metric, step))
  {
    match step
    case Punching(env, p) =>
      if p.kind.In? { PunchInConsistent(t, metric, env, p); } else { PunchOutConsistent(t, metric, env, p); }
    case AutoClosing(workspace, now) =>
      AutoClosePassConsistent(t, workspace, now);
    case Purging(_, _) =>
  }

  lemma PunchInTimely(t: Tables, metric: Metric, env: Env, p: Punch, clock: Instant)
    requires Timely(t, clock) && clock <= env.now
    ensures Timely(PunchIn(t, metric, env, p).0, env.now)
  {
    TimelyLater(t, clock, env.now);
    PunchInEffect(t, metric, env, p);
    if env.workspace.Some? && OpenSession(t.sessions, p.user).None? {
      AfterPunchInTimely(t, env.workspace.value, env.now, p, clock);
    }
  }

  lemma {:induction false} PunchOutTimely(t: Tables, metric: Metric, env: Env, p: Punch, clock: Instant)
    requires Timely(t, clock) && clock <= env.now
    ensures Timely(PunchOut(t, metric, env, p).0, env.now)
  {
    TimelyLater(t, clock, env.now);
    PunchOutEffect(t, metric, env, p);
    var open := OpenSession(t.sessions, p.user);
    if open.Some? && t.sessions[open.value].punchIn < env.now {
      WithClosedTimely(t, open.value, env.now, Completed, env.now);
    }
  }

  lemma AutoClosePassTimely(t: Tables, workspace: Option<Workspace>, now: Instant, clock: Instant)
    requires Timely(t, clock) && clock <= now
    ensures Timely(AutoClosePass(t, workspace, now), now)
  {
    hide AutoClosedAll, StaleSessions, Closable, ConsistentRows, TimelyRows;
    TimelyLater(t, clock, now);
    if workspace.Some? {
      var hours := workspace.value.autoCloseHours;
      var stale := StaleSessions(t.sessions, now - Hours(hours));
      StaleClosable(t.sessions, hours, now);
      assert AutoClosePass(t, workspace, now) == AutoClosedAll(t, stale, hours);
      AutoClosedAllTimely(t, stale, hours, now);
    }
  }

  lemma StepTimely(t: Tables, metric: Metric, step: Step, clock: Instant)
    requires Timely(t, clock) && clock <= step.Now()
    ensures Timely(Next(t, metric, step), step.Now())
  {
    match step
    case Punching(env, p) =>
      if p.kind.In? { PunchInTimely(t, metric, env, p, clock); } else { PunchOutTimely(t, metric, env, p, clock); }
    case AutoClosing(workspace, now) =>
      AutoClosePassTimely(t, workspace, now, clock);
    case Purging(_, _) =>
  }

  /** Every serial run, whatever its timestamps, keeps the tables consistent. */
  lemma {:induction false} RunConsistent(metric: Metric, steps: seq<Step>)
    ensures Consistent(Run(EmptyTables, metric, steps))
  {
    if steps != [] {
      var n := |steps| - 1;
      RunConsistent(metric, steps[..n]);
      StepConsistent(Run(EmptyTables, metric, steps[..n]), metric, steps[n]);
    }
  }

  /** On a run whose timestamps follow its order, sessions are disjoint and every cached row is exact. */
  lemma {:induction false} RunTimely(metric: Metric, steps: seq<Step>, clock: Instant)
    requires Monotone(steps) && (steps != [] ==> steps[|steps| - 1].Now() <= clock)
    ensures Timely(Run(EmptyTables, metric, steps), clock)
  {
    if steps != [] {
      var n := |steps| - 1;
      RunTimely(metric, steps[..n], steps[n].Now());
      StepTimely(Run(EmptyTables, metric, steps[..n]), metric, steps[n], steps[n].Now());
    }
  }

  // ------------------------------------------------------------ late arrivals

  lemma {:induction false} AutoClosedAllKeepsLate(t: Tables, ids: seq<nat>, hours: int, k: DayKey)
    requires forall a :: 0 <= a < |ids| ==> ids[a] < |t.sessions|
    requires k in t.days
    ensures k in AutoClosedAll(t, ids, hours).days
    ensures AutoClosedAll(t, ids, hours).days[k].late == t.days[k].late
    decreases |ids|
  {
    if ids != [] { AutoClosedAllKeepsLate(AutoClosedOne(t, ids[0], hours), ids[1..], hours, k); }
  }

  lemma PunchKeepsLate(t: Tables, metric: Metric, env: Env, p: Punch, k: DayKey)
    requires CacheFollows(t.sessions, t.days) && k in t.days
    ensures k in Punched(t, metric, env, p).0.days
    ensures Punched(t, metric, env, p).0.days[k].late == t.days[k].late
  {
    assert RowFollows(t.sessions, k, t.days[k]);
  }

  /** Once a day row exists it is never removed and its lateness never changes. */
  lemma {:induction false} LatenessLatched(t: Tables, metric: Metric, step: Step, k: DayKey)
    requires Consistent(t) && k in t.days
    ensures k in Next(t, metric, step).days
    ensures Next(t, metric, step).days[k].late == t.days[k].late
  {
    hide AutoClosedAll, StaleSessions, RowFollows, Punched;
    match step
    case Punching(env, p) => PunchKeepsLate(t, metric, env, p, k);
    case AutoClosing(workspace, now) =>
      if workspace.Some? {
        var hours := workspace.value.autoCloseHours;
        AutoClosedAllKeepsLate(t, StaleSessions(t.sessions, now - Hours(hours)), hours, k);
      }
    case Purging(_, _) =>
  }

  /** ... over any number of further steps. */
  lemma {:induction false} LatenessLatchedOverRuns(t: Tables, metric: Metric, steps: seq<Step>, k: DayKey)
    requires Consistent(t) && k in t.days
    ensures Consistent(Run(t, metric, steps))
    ensures k in Run(t, metric, steps).days
    ensures Run(t, metric, steps).days[k].late == t.days[k].late
  {
    if steps != [] {
      var n := |steps| - 1;
      LatenessLatchedOverRuns(t, metric, steps[..n], k);
      StepConsistent(Run(t, metric, steps[..n]), metric, steps[n]);
      LatenessLatched(Run(t, metric, steps[..n]), metric, steps[n], k);
    }
  }
}
