/**
 Exactly when the sessions of a user stay apart. The service reads its clock before it waits for the user's
 row, so timestamps need not follow the serialisation order; what matters is only that each accepted punch-in
 comes no earlier than the end of that user's earlier sessions.
 */
module Order {
  import opened Base
  import opened Clock
  import opened Geofence
  import opened Attendance
  import opened AttendanceInvariants

  /** Whether a session accounts for the instant `x`; an open one accounts for everything since it began. */
  predicate Covers(s: Session, x: Instant) {
    s.punchIn <= x && (s.punchOut.Some? ==> x < s.punchOut.value)
  }

  /** No instant is accounted to two sessions of one user. */
  ghost predicate Disjoint(ss: seq<Session>) {
    forall i, j, x :: 0 <= i < j < |ss| && ss[i].user == ss[j].user && Covers(ss[i], x) ==> !Covers(ss[j], x)
  }

  ghost predicate EndedBy(ss: seq<Session>, user: UserId, now: Instant) {
    forall i :: 0 <= i < |ss| && ss[i].user == user ==> ss[i].punchOut.Some? && ss[i].punchOut.value <= now
  }

  /** The step is a punch-in that is going to be accepted. */
  predicate Opens(t: Tables, metric: Metric, step: Step) {
    step.Punching? && step.punch.kind.In? && Accepts(t, metric, step.env, step.punch)
  }

  /** A punch-in about to be accepted comes after the user's sessions so far. */
  ghost predicate ComesAfter(t: Tables, metric: Metric, step: Step) {
    Opens(t, metric, step) ==> EndedBy(t.sessions, step.punch.user, step.env.now)
  }

  ghost predicate InOrder(metric: Metric, steps: seq<Step>) {
    forall n: nat :: n < |steps| ==> ComesAfter(Run(EmptyTables, metric, steps[..n]), metric, steps[n])
  }

  // --------------------------------------------------------------- one step

  /** Nothing follows an open session of the same user. */
  ghost predicate OpenIsLast(ss: seq<Session>) {
    forall i, j :: 0 <= i < j < |ss| && ss[i].user == ss[j].user ==> !ss[i].Open()
  }

  predicate SameOrClosed(before: Session, after: Session) {
    || after == before
    || (before.Open() && !after.Open() && after.Day() == before.Day() && after.punchIn == before.punchIn)
  }

  ghost predicate OnlyCloses(before: seq<Session>, after: seq<Session>) {
    |before| == |after| && forall i :: 0 <= i < |before| ==> SameOrClosed(before[i], after[i])
  }

  lemma OnlyClosesTransitive(a: seq<Session>, b: seq<Session>, c: seq<Session>)
    requires OnlyCloses(a, b) && OnlyCloses(b, c)
    ensures OnlyCloses(a, c)
  {
    assert forall i :: 0 <= i < |a| ==> SameOrClosed(a[i], b[i]) && SameOrClosed(b[i], c[i]);
  }

  lemma {:induction false} AutoClosedAllOnlyCloses(t: Tables, ids: seq<nat>, hours: int, clock: Instant)
    requires Closable(t.sessions, ids, hours, clock)
    ensures OnlyCloses(t.sessions, AutoClosedAll(t, ids, hours).sessions)
    decreases |ids|
  {
    hide Aggregated;
    if ids != [] {
      var t1 := AutoClosedOne(t, ids[0], hours);
      assert OnlyCloses(t.sessions, t1.sessions);
      ClosableTail(t, ids, hours, clock);
      hide AutoClosedOne, OnlyCloses, Closable;
      AutoClosedAllOnlyCloses(t1, ids[1..], hours, clock);
      OnlyClosesTransitive(t.sessions, t1.sessions, AutoClosedAll(t1, ids[1..], hours).sessions);
    }
  }

  lemma PunchShape(t: Tables, metric: Metric, env: Env, p: Punch)
    ensures if p.kind.In? && Accepts(t, metric, env, p)
            then env.workspace.Some? && Punched(t, metric, env, p).0 == AfterPunchIn(t, env.workspace.value, env.now, p)
            else OnlyCloses(t.sessions, Punched(t, metric, env, p).0.sessions)
  {
    hide Aggregated, Validate, LastSighting, Settled, Today, AfterPunchIn;
  }

  lemma AutoClosePassShape(t: Tables, workspace: Option<Workspace>, now: Instant)
    ensures OnlyCloses(t.sessions, AutoClosePass(t, workspace, now).sessions)
  {
    if workspace.Some? {
      var hours := workspace.value.autoCloseHours;
      StaleClosable(t.sessions, hours, now);
      hide AutoClosedAll, StaleSessions, Closable, OnlyCloses;
      AutoClosedAllOnlyCloses(t, StaleSessions(t.sessions, now - Hours(hours)), hours, now);
    }
  }

  lemma ClosesNothing(ss: seq<Session>)
    ensures OnlyCloses(ss, ss)
  {
  }

  /** A step that opens no session at most closes some; a punch-in about to be accepted appends its session. */
  lemma StepShape(t: Tables, metric: Metric, step: Step)
    ensures if Opens(t, metric, step)
            then step.env.workspace.Some? &&
              Next(t, metric, step) == AfterPunchIn(t, step.env.workspace.value, step.env.now, step.punch)
            else OnlyCloses(t.sessions, Next(t, metric, step).sessions)
  {
    hide Punched, Accepts, OnlyCloses, AutoClosePass, AfterPunchIn;
    match step
    case Punching(env, p) => PunchShape(t, metric, env, p);
    case AutoClosing(workspace, now) => AutoClosePassShape(t, workspace, now);
    case Purging(_, _) => ClosesNothing(t.sessions);
  }

  /** Closing sessions neither breaks nor mends the order. */
  lemma ClosingKeepsOrder(before: seq<Session>, after: seq<Session>)
    requires OnlyCloses(before, after) && OpenIsLast(before)
    ensures OpenIsLast(after) && (Ordered(after) <==> Ordered(before))
  {
    assert forall i :: 0 <= i < |before| ==> SameOrClosed(before[i], after[i]);
  }

  /** A new session keeps the order exactly if every earlier session of its user ended by then. */
  lemma OpeningKeepsOrder(ss: seq<Session>, s: Session)
    requires OpenIsLast(ss) && forall i :: 0 <= i < |ss| && ss[i].user == s.user ==> !ss[i].Open()
    ensures OpenIsLast(ss + [s])
    ensures Ordered(ss + [s]) <==> Ordered(ss) && EndedBy(ss, s.user, s.punchIn)
  {
    var ss' := ss + [s];
    assert ss'[|ss|] == s;
    if Ordered(ss') {
      assert forall i :: 0 <= i < |ss| ==> ss'[i] == ss[i];
    }
  }

  lemma StepOrder(t: Tables, metric: Metric, step: Step)
    requires OpenIsLast(t.sessions)
    ensures OpenIsLast(Next(t, metric, step).sessions)
    ensures Ordered(Next(t, metric, step).sessions) <==> Ordered(t.sessions) && ComesAfter(t, metric, step)
  {
    StepShape(t, metric, step);
    if Opens(t, metric, step) {
      OpeningKeepsOrder(t.sessions,
        NewSession(step.punch.user, LocalDate(step.env.now, step.env.workspace.value.offset), step.env.now));
    } else {
      ClosingKeepsOrder(t.sessions, Next(t, metric, step).sessions);
    }
  }

  // ------------------------------------------------------------------- runs

  lemma InOrderPrefix(metric: Metric, steps: seq<Step>, n: nat)
    requires n <= |steps|
    ensures InOrder(metric, steps) ==> InOrder(metric, steps[..n])
  {
    hide ComesAfter, Run;
    assert forall i: nat :: i < n ==> steps[..n][..i] == steps[..i];
  }

  /**
   A user's sessions follow one another on a run exactly if every accepted punch-in came no earlier than the
   end of that user's earlier sessions. Closing, by the user or by the maintenance pass, never matters.
   */
  lemma {:induction false} OrderedExactly(metric: Metric, steps: seq<Step>)
    ensures OpenIsLast(Run(EmptyTables, metric, steps).sessions)
    ensures Ordered(Run(EmptyTables, metric, steps).sessions) <==> InOrder(metric, steps)
  {
    hide ComesAfter, Next, Ordered, OpenIsLast;
    if steps == [] {
      NoSessionsOrdered();
    } else {
      var n := |steps| - 1;
      OrderedExactly(metric, steps[..n]);
      StepOrder(Run(EmptyTables, metric, steps[..n]), metric, steps[n]);
      InOrderPrefix(metric, steps, n);
      hide Run;
      assert InOrder(metric, steps) <==>
        InOrder(metric, steps[..n]) && ComesAfter(Run(EmptyTables, metric, steps[..n]), metric, steps[n]) by {
        assert forall i: nat :: i < n ==> steps[..n][..i] == steps[..i];
      }
    }
  }

  lemma NoSessionsOrdered()
    ensures OpenIsLast([]) && Ordered([])
  {
  }

  lemma OrderedDisjoint(ss: seq<Session>)
    requires Ordered(ss)
    ensures Disjoint(ss)
  {
  }

  /** A punch-in accepted before an earlier session's end overlaps that session at once. */
  lemma EarlyPunchInOverlaps(t: Tables, metric: Metric, step: Step)
    requires Consistent(t) && !ComesAfter(t, metric, step)
    ensures !Disjoint(Next(t, metric, step).sessions)
  {
    StepShape(t, metric, step);
    hide Next, Accepts;
    var ss := Next(t, metric, step).sessions;
    var i :| 0 <= i < |t.sessions| && t.sessions[i].user == step.punch.user
      && !(t.sessions[i].punchOut.Some? && t.sessions[i].punchOut.value <= step.env.now);
    assert RowConsistent(t.sessions[i]);
    assert ss[i] == t.sessions[i] && ss[|t.sessions|].punchIn == step.env.now && ss[|t.sessions|].user == ss[i].user;
    var x := Max(ss[i].punchIn, step.env.now);
    assert Covers(ss[i], x) && Covers(ss[|t.sessions|], x);
  }

  /** At no moment of a run is an instant accounted to two sessions of one user, exactly if the run is in order. */
  lemma {:induction false} DisjointThroughoutExactly(metric: Metric, steps: seq<Step>)
    ensures InOrder(metric, steps) <==>
      forall n: nat :: n <= |steps| ==> Disjoint(Run(EmptyTables, metric, steps[..n]).sessions)
  {
    hide Next, Disjoint, ComesAfter, Consistent;
    forall n: nat | n <= |steps| && InOrder(metric, steps)
      ensures Disjoint(Run(EmptyTables, metric, steps[..n]).sessions)
    {
      InOrderPrefix(metric, steps, n);
      OrderedExactly(metric, steps[..n]);
      OrderedDisjoint(Run(EmptyTables, metric, steps[..n]).sessions);
    }
    if !InOrder(metric, steps) {
      var n: nat :| n < |steps| && !ComesAfter(Run(EmptyTables, metric, steps[..n]), metric, steps[n]);
      RunConsistent(metric, steps[..n]);
      RunAppend(EmptyTables, metric, steps[..n], steps[n]);
      assert steps[..n] + [steps[n]] == steps[..n + 1];
      EarlyPunchInOverlaps(Run(EmptyTables, metric, steps[..n]), metric, steps[n]);
      assert !Disjoint(Run(EmptyTables, metric, steps[..n + 1]).sessions);
    }
  }

  /** Timestamps that follow the serialisation order are enough. */
  lemma MonotoneInOrder(metric: Metric, steps: seq<Step>)
    requires Monotone(steps)
    ensures InOrder(metric, steps)
  {
    RunTimely(metric, steps, if steps == [] then 0 else steps[|steps| - 1].Now());
    OrderedExactly(metric, steps);
  }

  // -------------------------------------------------------- exact day rows

  lemma WithClosedKeepsExact(t: Tables, i: nat, end: Instant, how: SessionStatus)
    requires i < |t.sessions| && CacheExact(t.sessions, t.days)
    ensures CacheExact(WithClosed(t, i, end, how).sessions, WithClosed(t, i, end, how).days)
  {
    var t' := WithClosed(t, i, end, how);
    var s := t'.sessions[i];
    forall k | k in t'.days
      ensures t'.days[k] == Recomputed(t'.sessions, k, t'.days[k])
    {
      if k != s.Day() { AggregatedElsewhere(t.sessions, i, s, k); }
    }
  }

  lemma {:induction false} AutoClosedAllKeepsExact(t: Tables, ids: seq<nat>, hours: int)
    requires CacheExact(t.sessions, t.days) && forall a :: 0 <= a < |ids| ==> ids[a] < |t.sessions|
    ensures CacheExact(AutoClosedAll(t, ids, hours).sessions, AutoClosedAll(t, ids, hours).days)
    decreases |ids|
  {
    hide CacheExact, Aggregated;
    if ids != [] {
      WithClosedKeepsExact(t, ids[0], t.sessions[ids[0]].punchIn + Hours(hours), AutoClosed);
      AutoClosedAllKeepsExact(AutoClosedOne(t, ids[0], hours), ids[1..], hours);
    }
  }

  /** A punch-in about to be accepted is not earlier than the first punch-in its day row shows. */
  predicate NotBeforeFirstIn(t: Tables, metric: Metric, step: Step) {
    Opens(t, metric, step) && step.env.workspace.Some? ==>
      var k := DayKey(step.punch.user, LocalDate(step.env.now, step.env.workspace.value.offset));
      k in t.days && t.days[k].firstIn.Some? ==> t.days[k].firstIn.value <= step.env.now
  }

  /** The patch of a punch-in leaves an exact row exactly if the day does not show a later first punch-in. */
  lemma PatchExactly(t: Tables, ws: Workspace, now: Instant, p: Punch)
    requires Consistent(t) && CacheExact(t.sessions, t.days)
    ensures var t' := AfterPunchIn(t, ws, now, p);
      var k := DayKey(p.user, LocalDate(now, ws.offset));
      CacheExact(t'.sessions, t'.days) <==> (k in t.days && t.days[k].firstIn.Some? ==> t.days[k].firstIn.value <= now)
  {
    var t' := AfterPunchIn(t, ws, now, p);
    var s := NewSession(p.user, LocalDate(now, ws.offset), now);
    forall k | k in t'.days
      ensures Aggregated(t'.sessions, k) ==
        if s.Day() == k then Add(Aggregated(t.sessions, k), s) else Aggregated(t.sessions, k)
      ensures k == s.Day() && k in t.days ==> RowFollows(t.sessions, k, t.days[k])
    {
      AggregatedAppend(t.sessions, s, k);
    }
    AggregatedShape(t.sessions, s.Day());
    hide Aggregated;
    assert s.Day() in t'.days;
  }

  lemma PunchInRows(t: Tables, metric: Metric, env: Env, p: Punch)
    requires p.kind.In?
    ensures var t' := PunchIn(t, metric, env, p).0;
      if Accepts(t, metric, env, p) then env.workspace.Some? && t' == AfterPunchIn(t, env.workspace.value, env.now, p)
      else t'.sessions == t.sessions && t'.days == t.days
  {
    hide Aggregated, Validate, LastSighting, Settled, Today, AfterPunchIn;
  }

  lemma PunchInExactly(t: Tables, metric: Metric, env: Env, p: Punch)
    requires Consistent(t) && CacheExact(t.sessions, t.days) && p.kind.In?
    ensures var t' := PunchIn(t, metric, env, p).0;
      CacheExact(t'.sessions, t'.days) <==> NotBeforeFirstIn(t, metric, Punching(env, p))
  {
    PunchInRows(t, metric, env, p);
    hide CacheExact, Consistent, PunchIn, Accepts, AfterPunchIn;
    if Accepts(t, metric, env, p) { PatchExactly(t, env.workspace.value, env.now, p); }
  }

  lemma PunchOutExact(t: Tables, metric: Metric, env: Env, p: Punch)
    requires CacheExact(t.sessions, t.days)
    ensures var t' := PunchOut(t, metric, env, p).0; CacheExact(t'.sessions, t'.days)
  {
    PunchOutEffect(t, metric, env, p);
    hide PunchOut, CacheExact;
    var open := OpenSession(t.sessions, p.user);
    if open.Some? { WithClosedKeepsExact(t, open.value, env.now, Completed); }
  }

  lemma AutoClosePassExact(t: Tables, workspace: Option<Workspace>, now: Instant)
    requires CacheExact(t.sessions, t.days)
    ensures var t' := AutoClosePass(t, workspace, now); CacheExact(t'.sessions, t'.days)
  {
    hide CacheExact, AutoClosedAll, StaleSessions;
    if workspace.Some? {
      var hours := workspace.value.autoCloseHours;
      AutoClosedAllKeepsExact(t, StaleSessions(t.sessions, now - Hours(hours)), hours);
    }
  }

  lemma StepExactly(t: Tables, metric: Metric, step: Step)
    requires Consistent(t) && CacheExact(t.sessions, t.days)
    ensures CacheExact(Next(t, metric, step).sessions, Next(t, metric, step).days) <==>
      NotBeforeFirstIn(t, metric, step)
  {
    hide CacheExact, Consistent, PunchIn, PunchOut, AutoClosePass, Accepts;
    match step
    case Punching(env, p) =>
      if p.kind.In? { PunchInExactly(t, metric, env, p); } else { PunchOutExact(t, metric, env, p); }
    case AutoClosing(workspace, now) => AutoClosePassExact(t, workspace, now);
    case Purging(_, _) =>
  }

  ghost predicate ExactAfter(metric: Metric, steps: seq<Step>, n: nat)
    requires n <= |steps|
  {
    var t := Run(EmptyTables, metric, steps[..n]);
    CacheExact(t.sessions, t.days)
  }

  lemma OneMoreStep(metric: Metric, steps: seq<Step>, n: nat)
    requires n < |steps| && ExactAfter(metric, steps, n)
    ensures ExactAfter(metric, steps, n + 1) <==>
      NotBeforeFirstIn(Run(EmptyTables, metric, steps[..n]), metric, steps[n])
  {
    hide Next, Consistent, CacheExact, NotBeforeFirstIn, Run;
    RunConsistent(metric, steps[..n]);
    RunAppend(EmptyTables, metric, steps[..n], steps[n]);
    assert steps[..n] + [steps[n]] == steps[..n + 1];
    StepExactly(Run(EmptyTables, metric, steps[..n]), metric, steps[n]);
  }

  lemma {:induction false} ExactUpTo(metric: Metric, steps: seq<Step>, n: nat)
    requires forall i: nat :: i < |steps| ==> NotBeforeFirstIn(Run(EmptyTables, metric, steps[..i]), metric, steps[i])
    requires n <= |steps|
    ensures ExactAfter(metric, steps, n)
  {
    hide NotBeforeFirstIn;
    if n > 0 {
      ExactUpTo(metric, steps, n - 1);
      OneMoreStep(metric, steps, n - 1);
    }
  }

  /**
   At every moment of a run each cached row equals its recomputation, exactly if no accepted punch-in was
   earlier than the first punch-in its day row already showed.
   */
  lemma {:induction false} ExactThroughoutExactly(metric: Metric, steps: seq<Step>)
    ensures (forall n: nat :: n <= |steps| ==> ExactAfter(metric, steps, n)) <==>
      (forall n: nat :: n < |steps| ==> NotBeforeFirstIn(Run(EmptyTables, metric, steps[..n]), metric, steps[n]))
  {
    hide ExactAfter, NotBeforeFirstIn;
    if forall n: nat :: n < |steps| ==> NotBeforeFirstIn(Run(EmptyTables, metric, steps[..n]), metric, steps[n]) {
      forall n: nat | n <= |steps| ensures ExactAfter(metric, steps, n) { ExactUpTo(metric, steps, n); }
    }
    if forall n: nat :: n <= |steps| ==> ExactAfter(metric, steps, n) {
      forall n: nat | n < |steps|
        ensures NotBeforeFirstIn(Run(EmptyTables, metric, steps[..n]), metric, steps[n])
      {
        assert ExactAfter(metric, steps, n) && ExactAfter(metric, steps, n + 1);
        OneMoreStep(metric, steps, n);
      }
    }
  }

  /** Coming after the user's earlier sessions is in particular not coming before the day's first punch-in. */
  lemma AfterFirstIn(t: Tables, metric: Metric, step: Step)
    requires Consistent(t) && CacheExact(t.sessions, t.days) && ComesAfter(t, metric, step)
    ensures NotBeforeFirstIn(t, metric, step)
  {
    hide Accepts;
    if Opens(t, metric, step) && step.env.workspace.Some? {
      var k := DayKey(step.punch.user, LocalDate(step.env.now, step.env.workspace.value.offset));
      assert forall i :: 0 <= i < |t.sessions| ==> RowConsistent(t.sessions[i]);
      FirstInWithin(t.sessions, k, step.env.now);
      hide Aggregated;
    }
  }

  /** On a run in order every cached row is exact. */
  lemma {:induction false} InOrderExact(metric: Metric, steps: seq<Step>)
    requires InOrder(metric, steps)
    ensures CacheExact(Run(EmptyTables, metric, steps).sessions, Run(EmptyTables, metric, steps).days)
  {
    hide CacheExact, Consistent, Next, ComesAfter, NotBeforeFirstIn;
    if steps == [] {
      NothingCached();
    } else {
      var n := |steps| - 1;
      var t := Run(EmptyTables, metric, steps[..n]);
      InOrderPrefix(metric, steps, n);
      InOrderExact(metric, steps[..n]);
      RunConsistent(metric, steps[..n]);
      assert ComesAfter(t, metric, steps[n]);
      AfterFirstIn(t, metric, steps[n]);
      StepExactly(t, metric, steps[n]);
    }
  }

  lemma NothingCached()
    ensures CacheExact([], map[])
  {
  }
}
