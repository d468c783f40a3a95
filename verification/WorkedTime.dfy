/** How cached totals relate to the time really worked, on runs whose punch-ins come in order. */
module WorkedTime {
  import opened Base
  import opened Clock
  import opened Geofence
  import opened Attendance
  import opened AttendanceInvariants
  import opened Order

  /** No instant is accounted to two sessions of one user, automatically closed sessions included. */
  lemma {:induction false} SessionsDisjoint(metric: Metric, steps: seq<Step>, i: nat, j: nat, x: Instant)
    requires InOrder(metric, steps)
    requires i < |Run(EmptyTables, metric, steps).sessions| && j < |Run(EmptyTables, metric, steps).sessions|
    requires Run(EmptyTables, metric, steps).sessions[i].user == Run(EmptyTables, metric, steps).sessions[j].user
    requires Covers(Run(EmptyTables, metric, steps).sessions[i], x)
    requires Covers(Run(EmptyTables, metric, steps).sessions[j], x)
    ensures i == j
  {
    OrderedExactly(metric, steps);
    OrderedDisjoint(Run(EmptyTables, metric, steps).sessions);
    hide Run, InOrder, Ordered;
  }

  /** A punch by user 0 that passes every gate. */
  function Calm(ws: Workspace, kind: PunchType, now: Instant): Step {
    Punching(Env(Some(ws), Enabled, now), Punch(0, kind, None, Place(10.0, 10.0), 1.0))
  }

  lemma CalmPunchIn(t: Tables, ws: Workspace, now: Instant)
    requires OpenSession(t.sessions, 0).None?
    ensures Next(t, NoDistance, Calm(ws, In, now)) == AfterPunchIn(t, ws, now, Calm(ws, In, now).punch)
  {
    hide Aggregated, Today, AfterPunchIn, LastSighting;
  }

  lemma CalmPunchOut(t: Tables, ws: Workspace, now: Instant, i: nat)
    requires OpenSession(t.sessions, 0) == Some(i) && t.sessions[i].punchIn < now
    ensures Next(t, NoDistance, Calm(ws, Out, now)) == AfterPunchOut(t, i, now, Calm(ws, Out, now).punch)
  {
    hide Aggregated, Today, AfterPunchOut, LastSighting;
  }

  /**
   A run that is not in order: the service reads its clock before it waits for the user's row, so a punch-in
   that read 5 s can be serialised after a stay from 10 s to 20 s. The sessions then overlap, and the patched
   day row keeps a first punch-in that recomputing would correct.
   */
  lemma OutOfOrderClockOverlaps(ws: Workspace) returns (steps: seq<Step>)
    ensures steps == [Calm(ws, In, Seconds(10)), Calm(ws, Out, Seconds(20)), Calm(ws, In, Seconds(5))]
    ensures var t := Run(EmptyTables, NoDistance, steps);
      && |t.sessions| == 2 && t.sessions[0].user == t.sessions[1].user
      && Covers(t.sessions[0], Seconds(12)) && Covers(t.sessions[1], Seconds(12))
    ensures !InOrder(NoDistance, steps)
    ensures LocalDate(Seconds(5), ws.offset) == LocalDate(Seconds(20), ws.offset) ==>
      var t := Run(EmptyTables, NoDistance, steps); !CacheExact(t.sessions, t.days)
  {
    var s0, s1, s2 := Calm(ws, In, Seconds(10)), Calm(ws, Out, Seconds(20)), Calm(ws, In, Seconds(5));
    steps := [s0, s1, s2];
    assert steps == ([] + [s0]) + [s1] + [s2];
    RunAppend(EmptyTables, NoDistance, [], s0);
    RunAppend(EmptyTables, NoDistance, [] + [s0], s1);
    RunAppend(EmptyTables, NoDistance, [] + [s0] + [s1], s2);
    var t1 := AfterPunchIn(EmptyTables, ws, Seconds(10), s0.punch);
    CalmPunchIn(EmptyTables, ws, Seconds(10));
    assert t1.sessions == [NewSession(0, LocalDate(Seconds(10), ws.offset), Seconds(10))];
    CalmPunchOut(t1, ws, Seconds(20), 0);
    var t2 := AfterPunchOut(t1, 0, Seconds(20), s1.punch);
    var closed := t1.sessions[0].Closed(Seconds(20), Completed);
    assert t2.sessions == [closed];
    CalmPunchIn(t2, ws, Seconds(5));
    var t3 := AfterPunchIn(t2, ws, Seconds(5), s2.punch);
    hide Next, Run, InOrder;
    assert t3.sessions == [closed, NewSession(0, LocalDate(Seconds(5), ws.offset), Seconds(5))];
    if InOrder(NoDistance, steps) { SessionsDisjoint(NoDistance, steps, 0, 1, Seconds(12)); }
    if LocalDate(Seconds(5), ws.offset) == LocalDate(Seconds(20), ws.offset) {
      LateFirstIn(ws, t1, t2, t3, closed);
    }
  }

  lemma LateFirstIn(ws: Workspace, t1: Tables, t2: Tables, t3: Tables, closed: Session)
    requires t1 == AfterPunchIn(EmptyTables, ws, Seconds(10), Calm(ws, In, Seconds(10)).punch)
    requires t2 == AfterPunchOut(t1, 0, Seconds(20), Calm(ws, Out, Seconds(20)).punch)
    requires t3 == AfterPunchIn(t2, ws, Seconds(5), Calm(ws, In, Seconds(5)).punch)
    requires closed == NewSession(0, LocalDate(Seconds(10), ws.offset), Seconds(10)).Closed(Seconds(20), Completed)
    requires LocalDate(Seconds(5), ws.offset) == LocalDate(Seconds(20), ws.offset)
    ensures !CacheExact(t3.sessions, t3.days)
  {
    LocalDateMonotone(Seconds(5), Seconds(10), ws.offset);
    LocalDateMonotone(Seconds(10), Seconds(20), ws.offset);
    var k := closed.Day();
    var second := NewSession(0, LocalDate(Seconds(5), ws.offset), Seconds(5));
    assert t2.sessions == [closed];
    assert [closed] == [] + [closed];
    AggregatedAppend([], closed, k);
    AggregatedAppend([closed], second, k);
    assert k in t3.days && t3.days[k].firstIn == Some(Seconds(10));
    assert t3.sessions == [closed] + [second];
    assert Recomputed(t3.sessions, k, t3.days[k]).firstIn == Some(Seconds(5));
  }

  /**
   Elapsed seconds are the whole seconds from punch-in to punch-out, or to now while the session runs; none before it
   begins.
   */
  lemma ElapsedIsWholeSeconds(s: Session, now: Instant)
    requires RowConsistent(s)
    ensures var end := if s.punchOut.Some? then s.punchOut.value else Max(s.punchIn, now);
      Seconds(Elapsed(s, now)) <= end - s.punchIn < Seconds(Elapsed(s, now) + 1)
  {
  }

  /** A closed session shows its stored duration, and nothing if none is stored. */
  lemma ElapsedOfClosed(s: Session, now: Instant)
    requires s.punchOut.Some?
    ensures s.duration == Some(Elapsed(s, now)) || (s.duration.None? && Elapsed(s, now) == 0)
  {
  }

  /** A punch-in is late from the first second of the minute after the threshold minute on. */
  lemma LateFromNextMinute(t: Instant, ws: Workspace)
    ensures IsLate(t, ws) <==>
      t - StartOf(LocalDate(t, ws.offset), ws.offset) >= (ws.startMinute + ws.lateThreshold + 1) * 60_000_000
  {
  }

  /** Microseconds between punch-in and punch-out, over the closed sessions of a day. */
  function ExactTime(ss: seq<Session>, k: DayKey): int {
    if ss == [] then 0 else
    var s := ss[|ss| - 1];
    ExactTime(ss[..|ss| - 1], k) + (if s.Day() == k && s.punchOut.Some? then s.punchOut.value - s.punchIn else 0)
  }

  lemma RowsConsistentPrefix(ss: seq<Session>, n: nat)
    requires RowsConsistent(ss) && n <= |ss|
    ensures RowsConsistent(ss[..n])
  {
  }

  lemma OrderedPrefix(ss: seq<Session>, n: nat)
    requires Ordered(ss) && n <= |ss|
    ensures Ordered(ss[..n])
  {
  }

  /** Truncating each duration loses less than a second per closed session, and never adds any. */
  lemma {:induction false} TruncationLoss(ss: seq<Session>, k: DayKey)
    requires RowsConsistent(ss)
    ensures var a := Aggregated(ss, k);
      && a.open <= a.count
      && a.total >= 0
      && Seconds(a.total) <= ExactTime(ss, k) <= Seconds(a.total) + (a.count - a.open) * 999_999
  {
    if ss != [] {
      var n := |ss| - 1;
      RowsConsistentPrefix(ss, n);
      TruncationLoss(ss[..n], k);
      assert RowConsistent(ss[n]);
    }
  }

  lemma {:induction false} LastOutBefore(ss: seq<Session>, k: DayKey, bound: Instant)
    requires forall i :: 0 <= i < |ss| && ss[i].user == k.user ==> ss[i].punchOut.Some? && ss[i].punchOut.value <= bound
    ensures Aggregated(ss, k).lastOut.Some? ==> Aggregated(ss, k).lastOut.value <= bound
    ensures Aggregated(ss, k).count > 0 ==> Aggregated(ss, k).lastOut.Some?
  {
    if ss != [] {
      LastOutBefore(ss[..|ss| - 1], k, bound);
    }
  }

  /** Disjoint sessions fit between the first punch-in and the last punch-out of their day. */
  lemma {:induction false} ExactTimeWithinSpan(ss: seq<Session>, k: DayKey)
    requires RowsConsistent(ss) && Ordered(ss)
    ensures var a := Aggregated(ss, k);
      && (a.lastOut.None? ==> ExactTime(ss, k) == 0)
      && (a.lastOut.Some? ==> a.firstIn.Some? && a.firstIn.value <= a.lastOut.value)
      && (a.lastOut.Some? ==> ExactTime(ss, k) <= a.lastOut.value - a.firstIn.value)
  {
    if ss != [] {
      var n := |ss| - 1;
      var s := ss[n];
      RowsConsistentPrefix(ss, n);
      OrderedPrefix(ss, n);
      ExactTimeWithinSpan(ss[..n], k);
      AggregatedShape(ss[..n], k);
      if s.Day() == k {
        assert forall i :: 0 <= i < n && ss[i].user == k.user ==> ss[..n][i].punchOut.value <= s.punchIn;
        LastOutBefore(ss[..n], k, s.punchIn);
        assert RowConsistent(s);
      }
    }
  }

  /**
   The cached total of any day row never exceeds the span from its first punch-in to its last punch-out,
   and misses the exact time by less than a second per closed session.
   */
  lemma {:induction false} DayTotalBounds(metric: Metric, steps: seq<Step>, k: DayKey)
    requires InOrder(metric, steps)
    requires k in Run(EmptyTables, metric, steps).days
    ensures var t := Run(EmptyTables, metric, steps);
      var row := t.days[k];
      var a := Aggregated(t.sessions, k);
      && 0 <= Seconds(row.total) <= ExactTime(t.sessions, k) <= Seconds(row.total) + (a.count - a.open) * 999_999
      && (row.lastOut.None? ==> row.total == 0)
      && (row.lastOut.Some? ==> row.firstIn.Some? && Seconds(row.total) <= row.lastOut.value - row.firstIn.value)
  {
    var t := Run(EmptyTables, metric, steps);
    RunConsistent(metric, steps);
    OrderedExactly(metric, steps);
    InOrderExact(metric, steps);
    hide Run, InOrder;
    TruncationLoss(t.sessions, k);
    ExactTimeWithinSpan(t.sessions, k);
  }

  // ------------------------------------------------------- one zone, one policy

  /** Every step reads a workspace with this zone and this lateness policy. */
  ghost predicate SamePolicy(steps: seq<Step>, ws: Workspace) {
    forall i :: 0 <= i < |steps| && steps[i].Punching? && steps[i].env.workspace.Some? ==>
      var w := steps[i].env.workspace.value;
      w.offset == ws.offset && w.startMinute == ws.startMinute && w.lateThreshold == ws.lateThreshold
  }

  /** Every step reads a workspace in this zone. */
  ghost predicate SameOffset(steps: seq<Step>, offset: int) {
    forall i :: 0 <= i < |steps| && steps[i].Punching? && steps[i].env.workspace.Some? ==>
      steps[i].env.workspace.value.offset == offset
  }

  ghost predicate DatesLocal(ss: seq<Session>, offset: int) {
    forall i :: 0 <= i < |ss| ==> ss[i].date == LocalDate(ss[i].punchIn, offset)
  }

  /** In one zone every session sits on the local date it began, whatever the order of timestamps. */
  lemma {:induction false} DatesAreLocal(metric: Metric, steps: seq<Step>, offset: int)
    requires SameOffset(steps, offset)
    ensures DatesLocal(Run(EmptyTables, metric, steps).sessions, offset)
  {
    if steps != [] {
      var n := |steps| - 1;
      var t := Run(EmptyTables, metric, steps[..n]);
      DatesAreLocal(metric, steps[..n], offset);
      StepShape(t, metric, steps[n]);
      hide Next, Opens;
      if !Opens(t, metric, steps[n]) {
        assert forall i :: 0 <= i < |t.sessions| ==> SameOrClosed(t.sessions[i], Next(t, metric, steps[n]).sessions[i]);
      } else {
        OpensPunches(t, metric, steps[n]);
      }
    }
  }

  lemma OpensPunches(t: Tables, metric: Metric, step: Step)
    requires Opens(t, metric, step)
    ensures step.Punching?
  {
  }

  ghost predicate LateFollowsFirstIn(t: Tables, ws: Workspace) {
    forall k :: k in t.days && t.days[k].firstIn.Some? ==> t.days[k].late == IsLate(t.days[k].firstIn.value, ws)
  }

  lemma WithClosedPolicy(t: Tables, i: nat, end: Instant, how: SessionStatus, ws: Workspace)
    requires CacheExact(t.sessions, t.days) && i < |t.sessions|
    requires DatesLocal(t.sessions, ws.offset) && LateFollowsFirstIn(t, ws)
    ensures DatesLocal(WithClosed(t, i, end, how).sessions, ws.offset)
    ensures LateFollowsFirstIn(WithClosed(t, i, end, how), ws)
  {
    SameFirstIn(t.sessions, i, t.sessions[i].Closed(end, how), t.sessions[i].Day());
  }

  lemma {:induction false} SameFirstIn(ss: seq<Session>, i: nat, s: Session, k: DayKey)
    requires i < |ss| && ss[i].Day() == s.Day() && ss[i].punchIn == s.punchIn
    ensures Aggregated(ss[i := s], k).firstIn == Aggregated(ss, k).firstIn
  {
    var n := |ss| - 1;
    if i == n {
      assert ss[i := s][..n] == ss[..n];
    } else {
      SameFirstIn(ss[..n], i, s, k);
      assert ss[i := s][..n] == ss[..n][i := s];
    }
  }

  lemma {:induction false} AutoClosedAllPolicy(t: Tables, ids: seq<nat>, hours: int, ws: Workspace)
    requires CacheExact(t.sessions, t.days) && forall a :: 0 <= a < |ids| ==> ids[a] < |t.sessions|
    requires DatesLocal(t.sessions, ws.offset) && LateFollowsFirstIn(t, ws)
    ensures DatesLocal(AutoClosedAll(t, ids, hours).sessions, ws.offset)
    ensures LateFollowsFirstIn(AutoClosedAll(t, ids, hours), ws)
    decreases |ids|
  {
    hide WithClosed, CacheExact, Aggregated;
    if ids != [] {
      WithClosedKeepsExact(t, ids[0], t.sessions[ids[0]].punchIn + Hours(hours), AutoClosed);
      WithClosedPolicy(t, ids[0], t.sessions[ids[0]].punchIn + Hours(hours), AutoClosed, ws);
      AutoClosedOneSize(t, ids[0], hours);
      AutoClosedAllPolicy(AutoClosedOne(t, ids[0], hours), ids[1..], hours, ws);
    }
  }

  lemma AutoClosedOneSize(t: Tables, i: nat, hours: int)
    requires i < |t.sessions|
    ensures |AutoClosedOne(t, i, hours).sessions| == |t.sessions|
  {
  }

  lemma PunchInPolicy(t: Tables, metric: Metric, env: Env, p: Punch, ws: Workspace)
    requires SamePolicy([Punching(env, p)], ws)
    requires DatesLocal(t.sessions, ws.offset) && LateFollowsFirstIn(t, ws)
    ensures DatesLocal(PunchIn(t, metric, env, p).0.sessions, ws.offset)
    ensures LateFollowsFirstIn(PunchIn(t, metric, env, p).0, ws)
  {
    assert [Punching(env, p)][0] == Punching(env, p);
  }

  lemma PunchOutPolicy(t: Tables, metric: Metric, env: Env, p: Punch, ws: Workspace)
    requires CacheExact(t.sessions, t.days)
    requires DatesLocal(t.sessions, ws.offset) && LateFollowsFirstIn(t, ws)
    ensures DatesLocal(PunchOut(t, metric, env, p).0.sessions, ws.offset)
    ensures LateFollowsFirstIn(PunchOut(t, metric, env, p).0, ws)
  {
    PunchOutEffect(t, metric, env, p);
    hide PunchOut, CacheExact;
    var open := OpenSession(t.sessions, p.user);
    if open.Some? { WithClosedPolicy(t, open.value, env.now, Completed, ws); }
  }

  lemma AutoClosePassPolicy(t: Tables, workspace: Option<Workspace>, now: Instant, ws: Workspace)
    requires CacheExact(t.sessions, t.days)
    requires DatesLocal(t.sessions, ws.offset) && LateFollowsFirstIn(t, ws)
    ensures DatesLocal(AutoClosePass(t, workspace, now).sessions, ws.offset)
    ensures LateFollowsFirstIn(AutoClosePass(t, workspace, now), ws)
  {
    hide AutoClosedAll, StaleSessions, CacheExact, DatesLocal, LateFollowsFirstIn;
    if workspace.Some? {
      var hours := workspace.value.autoCloseHours;
      AutoClosedAllPolicy(t, StaleSessions(t.sessions, now - Hours(hours)), hours, ws);
    }
  }

  lemma StepPolicy(t: Tables, metric: Metric, step: Step, ws: Workspace)
    requires CacheExact(t.sessions, t.days) && SamePolicy([step], ws)
    requires DatesLocal(t.sessions, ws.offset) && LateFollowsFirstIn(t, ws)
    ensures DatesLocal(Next(t, metric, step).sessions, ws.offset)
    ensures LateFollowsFirstIn(Next(t, metric, step), ws)
  {
    match step
    case Punching(env, p) =>
      if p.kind.In? { PunchInPolicy(t, metric, env, p, ws); } else { PunchOutPolicy(t, metric, env, p, ws); }
    case AutoClosing(workspace, now) =>
      AutoClosePassPolicy(t, workspace, now, ws);
    case Purging(_, _) =>
  }

  /** Sessions sit on the local date they began, and a day is late exactly when its first punch-in was. */
  lemma {:induction false} LateMeansFirstPunchLate(metric: Metric, steps: seq<Step>, ws: Workspace)
    requires InOrder(metric, steps) && SamePolicy(steps, ws)
    ensures DatesLocal(Run(EmptyTables, metric, steps).sessions, ws.offset)
    ensures LateFollowsFirstIn(Run(EmptyTables, metric, steps), ws)
  {
    if steps != [] {
      var n := |steps| - 1;
      InOrderPrefix(metric, steps, n);
      LateMeansFirstPunchLate(metric, steps[..n], ws);
      InOrderExact(metric, steps[..n]);
      assert SamePolicy([steps[n]], ws);
      hide Next, InOrder, CacheExact;
      StepPolicy(Run(EmptyTables, metric, steps[..n]), metric, steps[n], ws);
    }
  }
}
