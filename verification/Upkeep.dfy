/** What the automatic close does to the tables, and what running it regularly guarantees. */
module Upkeep {
  import opened Base
  import opened Clock
  import opened Geofence
  import opened Attendance
  import opened AttendanceInvariants
  import opened Order
  import opened WorkedTime

  // ----------------------------------------------------------------- one pass

  function Capped(s: Session, hours: int): Session { s.Closed(s.punchIn + Hours(hours), AutoClosed) }

  lemma {:induction false} AutoClosedAllSessions(t: Tables, ids: seq<nat>, hours: int)
    requires forall a :: 0 <= a < |ids| ==> ids[a] < |t.sessions|
    requires forall a, b :: 0 <= a < b < |ids| ==> ids[a] < ids[b]
    ensures forall i: nat :: i < |t.sessions| ==>
      AutoClosedAll(t, ids, hours).sessions[i] == if i in ids then Capped(t.sessions[i], hours) else t.sessions[i]
    decreases |ids|
  {
    hide Aggregated;
    if ids != [] {
      AutoClosedAllSessions(AutoClosedOne(t, ids[0], hours), ids[1..], hours);
      assert ids == [ids[0]] + ids[1..];
    }
  }

  /** Exactly the stale sessions are capped, each at `hours` after it began; every other row is untouched. */
  lemma AutoClosePassSessions(t: Tables, ws: Workspace, now: Instant)
    ensures var ss := AutoClosePass(t, Some(ws), now).sessions;
      && |ss| == |t.sessions|
      && forall i: nat :: i < |ss| ==>
           var s := t.sessions[i];
           var end := s.punchIn + Hours(ws.autoCloseHours);
           ss[i] ==
             if s.punchOut.None? && s.status == Active && end < now then
               Session(s.user, s.date, s.punchIn, Some(end), Some(3600 * ws.autoCloseHours), AutoClosed)
             else s
  {
    hide AutoClosedAll, StaleSessions;
    AutoClosedAllSessions(t, StaleSessions(t.sessions, now - Hours(ws.autoCloseHours)), ws.autoCloseHours);
  }

  /** Right after a pass no open session began before the cutoff. */
  lemma NoneLeftOpenPastCutoff(t: Tables, ws: Workspace, now: Instant)
    requires Consistent(t)
    ensures forall s :: s in AutoClosePass(t, Some(ws), now).sessions && s.Open() ==>
      now - Hours(ws.autoCloseHours) <= s.punchIn
  {
    AutoClosePassSessions(t, ws, now);
    forall s | s in AutoClosePass(t, Some(ws), now).sessions && s.Open()
      ensures now - Hours(ws.autoCloseHours) <= s.punchIn
    {
      hide AutoClosePass;
      var i: nat :| i < |t.sessions| && AutoClosePass(t, Some(ws), now).sessions[i] == s;
      assert RowConsistent(t.sessions[i]);
    }
  }

  lemma {:induction false} NoneStale(ss: seq<Session>, cutoff: Instant)
    requires forall i :: 0 <= i < |ss| ==> !Stale(ss[i], cutoff)
    ensures StaleSessions(ss, cutoff) == []
  {
    if ss != [] { NoneStale(ss[..|ss| - 1], cutoff); }
  }

  /** A second pass at the same instant finds nothing to do. */
  lemma SecondPassDoesNothing(t: Tables, ws: Workspace, now: Instant)
    ensures var once := AutoClosePass(t, Some(ws), now); AutoClosePass(once, Some(ws), now) == once
  {
    AutoClosePassSessions(t, ws, now);
    NoneStale(AutoClosePass(t, Some(ws), now).sessions, now - Hours(ws.autoCloseHours));
  }

  // ------------------------------------------------------- regular maintenance

  /** When stale sessions were last closed; `start` before the first pass. */
  function LastPass(steps: seq<Step>, start: Instant): Instant {
    if steps == [] then start else
    var last := steps[|steps| - 1];
    if last.AutoClosing? && last.workspace.Some? then last.at else LastPass(steps[..|steps| - 1], start)
  }

  /**
   Every punch-in comes after the cutoff of the pass before it, every punch-out at most `gap` after that pass, and
   every pass uses the same cutoff. Passes and purges may come at any time, and punches in any order.
   */
  ghost predicate Maintained(steps: seq<Step>, start: Instant, hours: int, gap: int) {
    && (forall i :: 0 <= i < |steps| && steps[i].Punching? ==>
          Punctual(steps[i].punch.kind, steps[i].env.now, LastPass(steps[..i], start), hours, gap))
    && (forall i :: 0 <= i < |steps| && steps[i].AutoClosing? && steps[i].workspace.Some? ==>
          steps[i].workspace.value.autoCloseHours == hours)
  }

  predicate Punctual(kind: PunchType, now: Instant, last: Instant, hours: int, gap: int) {
    if kind.In? then last - Hours(hours) <= now else now <= last + gap
  }

  lemma {:induction false} LastPassNotAfter(steps: seq<Step>, start: Instant, now: Instant)
    requires start <= now && forall i :: 0 <= i < |steps| ==> steps[i].Now() <= now
    ensures LastPass(steps, start) <= now
  {
    if steps != [] { LastPassNotAfter(steps[..|steps| - 1], start, now); }
  }

  /**
   On a clock that does not run backwards it is enough that no punch-out comes more than `gap` after the pass before it.
   */
  lemma MonotoneMaintained(steps: seq<Step>, start: Instant, hours: int, gap: int)
    requires Monotone(steps) && 0 <= hours && forall i :: 0 <= i < |steps| ==> start <= steps[i].Now()
    requires forall i :: 0 <= i < |steps| && steps[i].Punching? && steps[i].punch.kind.Out? ==>
      steps[i].env.now <= LastPass(steps[..i], start) + gap
    requires forall i :: 0 <= i < |steps| && steps[i].AutoClosing? && steps[i].workspace.Some? ==>
      steps[i].workspace.value.autoCloseHours == hours
    ensures Maintained(steps, start, hours, gap)
  {
    hide LastPass;
    forall i | 0 <= i < |steps| && steps[i].Punching?
      ensures LastPass(steps[..i], start) <= steps[i].env.now
    {
      assert steps[i].Now() == steps[i].env.now;
      LastPassNotAfter(steps[..i], start, steps[i].env.now);
    }
  }

  /** Closed sessions are short enough, and open ones began recently enough to stay so. */
  ghost predicate Bounded(ss: seq<Session>, hours: int, gap: int, last: Instant) {
    forall s :: s in ss ==>
      if s.punchOut.Some? then s.punchOut.value - s.punchIn <= Hours(hours) + gap else last - Hours(hours) <= s.punchIn
  }

  lemma PunchBounded(t: Tables, metric: Metric, env: Env, p: Punch, hours: int, gap: int, last: Instant)
    requires Bounded(t.sessions, hours, gap, last) && Punctual(p.kind, env.now, last, hours, gap)
    ensures Bounded(Punched(t, metric, env, p).0.sessions, hours, gap, last)
  {
    hide Aggregated, Validate, Settled, LastSighting;
    if p.kind.In? {
      PunchInEffect(t, metric, env, p);
      hide PunchIn;
    } else {
      PunchOutEffect(t, metric, env, p);
      hide PunchOut;
      var open := OpenSession(t.sessions, p.user);
      if open.Some? {
        assert t.sessions[open.value] in t.sessions;
        assert forall s :: s in AfterPunchOut(t, open.value, env.now, p).sessions ==>
          s in t.sessions || s == t.sessions[open.value].Closed(env.now, Completed);
      }
    }
  }

  lemma PassBounded(t: Tables, ws: Workspace, now: Instant, gap: int, last: Instant)
    requires Consistent(t) && Bounded(t.sessions, ws.autoCloseHours, gap, last) && 0 <= gap
    ensures Bounded(AutoClosePass(t, Some(ws), now).sessions, ws.autoCloseHours, gap, now)
  {
    NoneLeftOpenPastCutoff(t, ws, now);
    AutoClosePassSessions(t, ws, now);
    hide AutoClosePass;
    var ss := AutoClosePass(t, Some(ws), now).sessions;
    forall s | s in ss && s.punchOut.Some?
      ensures s.punchOut.value - s.punchIn <= Hours(ws.autoCloseHours) + gap
    {
      var i: nat :| i < |ss| && ss[i] == s;
      assert t.sessions[i] in t.sessions;
    }
  }

  lemma MaintainedPrefix(steps: seq<Step>, start: Instant, hours: int, gap: int)
    requires Maintained(steps, start, hours, gap) && steps != []
    ensures Maintained(steps[..|steps| - 1], start, hours, gap)
  {
    hide LastPass;
    var n := |steps| - 1;
    assert forall i :: 0 <= i < n ==> steps[..n][..i] == steps[..i];
  }

  lemma {:induction false} RunBounded(metric: Metric, steps: seq<Step>, start: Instant, hours: int, gap: int)
    requires Maintained(steps, start, hours, gap) && 0 <= gap
    ensures Bounded(Run(EmptyTables, metric, steps).sessions, hours, gap, LastPass(steps, start))
  {
    if steps != [] {
      var n := |steps| - 1;
      var t := Run(EmptyTables, metric, steps[..n]);
      var last := LastPass(steps[..n], start);
      MaintainedPrefix(steps, start, hours, gap);
      RunBounded(metric, steps[..n], start, hours, gap);
      RunConsistent(metric, steps[..n]);
      hide Bounded, Consistent, Punched, AutoClosedAll;
      match steps[n]
      case Punching(env, p) => PunchBounded(t, metric, env, p, hours, gap, last);
      case AutoClosing(workspace, now) =>
        if workspace.Some? { PassBounded(t, workspace.value, now, gap, last); }
      case Purging(_, _) =>
    }
  }

  /** With a pass at least every `gap`, no closed session is longer than the cutoff plus `gap`. */
  lemma {:induction false} DurationsBounded(metric: Metric, steps: seq<Step>, start: Instant, hours: int, gap: int,
        s: Session)
    requires Maintained(steps, start, hours, gap) && 0 <= gap
    requires s in Run(EmptyTables, metric, steps).sessions && s.duration.Some?
    ensures Seconds(s.duration.value) <= Hours(hours) + gap
    ensures s.punchOut.Some? && s.punchOut.value - s.punchIn <= Hours(hours) + gap
  {
    RunBounded(metric, steps, start, hours, gap);
    RunConsistent(metric, steps);
    assert RowConsistent(s);
  }

  /**
   ... and neither is a running one, at any instant up to `gap` after the last pass: what it shows is bounded alike.
   */
  lemma {:induction false} ElapsedBounded(metric: Metric, steps: seq<Step>, start: Instant, hours: int, gap: int,
        s: Session, now: Instant)
    requires Maintained(steps, start, hours, gap) && 0 <= gap && 0 <= hours
    requires s in Run(EmptyTables, metric, steps).sessions && now <= LastPass(steps, start) + gap
    ensures Seconds(Elapsed(s, now)) <= Hours(hours) + gap
    ensures s.Open() ==> now - s.punchIn <= Hours(hours) + gap
  {
    RunBounded(metric, steps, start, hours, gap);
    RunConsistent(metric, steps);
    hide Run;
    assert RowConsistent(s);
  }

  lemma {:induction false} LastOutOfSome(ss: seq<Session>, k: DayKey)
    ensures Aggregated(ss, k).lastOut.Some? ==>
      exists s :: s in ss && s.Day() == k && s.punchOut == Aggregated(ss, k).lastOut
  {
    if ss != [] {
      var n := |ss| - 1;
      LastOutOfSome(ss[..n], k);
      assert ss[n] in ss;
      assert forall s :: s in ss[..n] ==> s in ss;
    }
  }

  lemma {:induction false} FirstInOfSome(ss: seq<Session>, k: DayKey)
    ensures Aggregated(ss, k).firstIn.Some? ==>
      exists s :: s in ss && s.Day() == k && Some(s.punchIn) == Aggregated(ss, k).firstIn
  {
    if ss != [] {
      var n := |ss| - 1;
      FirstInOfSome(ss[..n], k);
      assert ss[n] in ss;
      assert forall s :: s in ss[..n] ==> s in ss;
    }
  }

  /** ... and no day is credited with more than its own length plus the cutoff plus `gap`. */
  lemma {:induction false} DayTotalsBounded(metric: Metric, steps: seq<Step>, start: Instant, hours: int, gap: int,
        offset: int, k: DayKey)
    requires Maintained(steps, start, hours, gap) && 0 <= gap && 0 <= hours && InOrder(metric, steps) &&
      SameOffset(steps, offset)
    requires k in Run(EmptyTables, metric, steps).days
    ensures Seconds(Run(EmptyTables, metric, steps).days[k].total) <= Days(1) + Hours(hours) + gap
  {
    var t := Run(EmptyTables, metric, steps);
    RunBounded(metric, steps, start, hours, gap);
    DatesAreLocal(metric, steps, offset);
    DayTotalBounds(metric, steps, k);
    InOrderExact(metric, steps);
    hide Run, Aggregated, ExactTime, InOrder, Maintained;
    LastOutOfSome(t.sessions, k);
    FirstInOfSome(t.sessions, k);
    assert t.days[k] == Recomputed(t.sessions, k, t.days[k]);
    if t.days[k].lastOut.Some? {
      var out :| out in t.sessions && out.Day() == k && out.punchOut == t.days[k].lastOut;
      var first :| first in t.sessions && first.Day() == k && Some(first.punchIn) == t.days[k].firstIn;
      assert out.date == LocalDate(out.punchIn, offset) == first.date == LocalDate(first.punchIn, offset);
    }
  }
}
