/** The append-only tables and the session table tell the same story. */
module Journal {
  import opened Base
  import opened Clock
  import opened Geofence
  import opened Attendance
  import opened AttendanceInvariants
  import opened WorkedTime

  // ------------------------------------------------------------------- replay

  /** Applies one recorded entry to a session table, reading nothing but the entry. */
  function Replay1(ss: seq<Session>, e: Entry, offset: int): seq<Session> {
    match e
    case AutoClose(i, hours) =>
      if i < |ss| then ss[i := ss[i].Closed(ss[i].punchIn + Hours(hours), AutoClosed)] else ss
    case Attempt(ev) =>
      if !ev.Accepted() then ss
      else if ev.kind.In? then ss + [NewSession(ev.user, LocalDate(ev.at, offset), ev.at)]
      else if ev.session.Some? && ev.session.value < |ss| then
        ss[ev.session.value := ss[ev.session.value].Closed(ev.at, Completed)]
      else ss
  }

  function Replay(journal: seq<Entry>, offset: int): seq<Session> {
    if journal == [] then [] else
    Replay1(Replay(journal[..|journal| - 1], offset), journal[|journal| - 1], offset)
  }

  lemma ReplayAppend(journal: seq<Entry>, e: Entry, offset: int)
    ensures Replay(journal + [e], offset) == Replay1(Replay(journal, offset), e, offset)
  {
    assert (journal + [e])[..|journal|] == journal;
  }

  /** Erasing coordinates does not disturb the replay. */
  lemma {:induction false} ReplayAfterPurge(journal: seq<Entry>, cutoff: Instant, offset: int)
    ensures Replay(PurgedJournal(journal, cutoff), offset) == Replay(journal, offset)
  {
    if journal != [] {
      var n := |journal| - 1;
      ReplayAfterPurge(journal[..n], cutoff, offset);
      assert PurgedJournal(journal, cutoff)[..n] == PurgedJournal(journal[..n], cutoff);
    }
  }

  lemma {:induction false} ReplayAutoClosedAll(t: Tables, ids: seq<nat>, hours: int, offset: int)
    requires Replay(t.journal, offset) == t.sessions
    requires forall a :: 0 <= a < |ids| ==> ids[a] < |t.sessions|
    ensures Replay(AutoClosedAll(t, ids, hours).journal, offset) == AutoClosedAll(t, ids, hours).sessions
    decreases |ids|
  {
    if ids != [] {
      ReplayAppend(t.journal, AutoClose(ids[0], hours), offset);
      ReplayAutoClosedAll(AutoClosedOne(t, ids[0], hours), ids[1..], hours, offset);
    }
  }

  lemma ReplayPunchIn(t: Tables, metric: Metric, env: Env, p: Punch, offset: int)
    requires Replay(t.journal, offset) == t.sessions && SameOffset([Punching(env, p)], offset) && p.kind.In?
    ensures Replay(PunchIn(t, metric, env, p).0.journal, offset) == PunchIn(t, metric, env, p).0.sessions
  {
    assert [Punching(env, p)][0] == Punching(env, p);
    ReplayAppend(t.journal, RecordOf(p, env.now, Some(|t.sessions|), None), offset);
    if env.workspace.Some? {
      ReplayAppend(t.journal, RecordOf(p, env.now, None, VerdictOn(t, metric, env, p).code), offset);
    }
  }

  lemma ReplayPunchOut(t: Tables, metric: Metric, env: Env, p: Punch, offset: int)
    requires Replay(t.journal, offset) == t.sessions && p.kind.Out?
    ensures Replay(PunchOut(t, metric, env, p).0.journal, offset) == PunchOut(t, metric, env, p).0.sessions
  {
    ReplayAppend(t.journal, RecordOf(p, env.now, OpenSession(t.sessions, p.user), None), offset);
    if env.workspace.Some? {
      ReplayAppend(t.journal, RecordOf(p, env.now, None, VerdictOn(t, metric, env, p).code), offset);
    }
  }

  lemma ReplayAutoClosePass(t: Tables, workspace: Option<Workspace>, now: Instant, offset: int)
    requires Replay(t.journal, offset) == t.sessions
    ensures Replay(AutoClosePass(t, workspace, now).journal, offset) == AutoClosePass(t, workspace, now).sessions
  {
    hide AutoClosedAll, Replay;
    if workspace.Some? {
      var hours := workspace.value.autoCloseHours;
      ReplayAutoClosedAll(t, StaleSessions(t.sessions, now - Hours(hours)), hours, offset);
    }
  }

  lemma ReplayStep(t: Tables, metric: Metric, step: Step, offset: int)
    requires Replay(t.journal, offset) == t.sessions && SameOffset([step], offset)
    ensures Replay(Next(t, metric, step).journal, offset) == Next(t, metric, step).sessions
  {
    hide AutoClosePass, PunchIn, PunchOut, Replay, PurgedJournal;
    match step
    case Punching(env, p) =>
      if p.kind.In? { ReplayPunchIn(t, metric, env, p, offset); } else { ReplayPunchOut(t, metric, env, p, offset); }
    case AutoClosing(workspace, now) =>
      ReplayAutoClosePass(t, workspace, now, offset);
    case Purging(days, now) =>
      ReplayAfterPurge(t.journal, now - Days(days), offset);
  }

  /** Replaying accepted events and automatic closes in order rebuilds the session table exactly. */
  lemma {:induction false} ReplayRebuildsSessions(metric: Metric, steps: seq<Step>, offset: int)
    requires SameOffset(steps, offset)
    ensures Replay(Run(EmptyTables, metric, steps).journal, offset) == Run(EmptyTables, metric, steps).sessions
  {
    if steps != [] {
      var n := |steps| - 1;
      ReplayRebuildsSessions(metric, steps[..n], offset);
      assert SameOffset([steps[n]], offset);
      ReplayStep(Run(EmptyTables, metric, steps[..n]), metric, steps[n], offset);
    }
  }

  // ------------------------------------------------------------------- counts

  datatype Effect = Opens | Completes | Caps

  datatype Mark = Mark(effect: Effect, session: nat)

  /** What an entry did to the session table, if anything. */
  function MarkOf(e: Entry): Option<Mark> {
    match e
    case AutoClose(i, _) => Some(Mark(Caps, i))
    case Attempt(ev) =>
      if !ev.Accepted() || ev.session.None? then None
      else Some(Mark(if ev.kind.In? then Opens else Completes, ev.session.value))
  }

  function Marks(journal: seq<Entry>, m: Mark): nat {
    if journal == [] then 0 else
    Marks(journal[..|journal| - 1], m) + (if MarkOf(journal[|journal| - 1]) == Some(m) then 1 else 0)
  }

  function Accepted(journal: seq<Entry>, effect: Effect): nat {
    if journal == [] then 0 else
    var last := MarkOf(journal[|journal| - 1]);
    Accepted(journal[..|journal| - 1], effect) + (if last.Some? && last.value.effect == effect then 1 else 0)
  }

  function CountStatus(ss: seq<Session>, status: SessionStatus): nat {
    if ss == [] then 0 else
    CountStatus(ss[..|ss| - 1], status) + (if ss[|ss| - 1].status == status then 1 else 0)
  }

  lemma MarksAppend(journal: seq<Entry>, e: Entry, m: Mark)
    ensures Marks(journal + [e], m) == Marks(journal, m) + (if MarkOf(e) == Some(m) then 1 else 0)
  {
    assert (journal + [e])[..|journal|] == journal;
  }

  lemma AcceptedAppend(journal: seq<Entry>, e: Entry, effect: Effect)
    ensures Accepted(journal + [e], effect) ==
            Accepted(journal, effect) + (if MarkOf(e).Some? && MarkOf(e).value.effect == effect then 1 else 0)
  {
    assert (journal + [e])[..|journal|] == journal;
  }

  lemma CountStatusAppend(ss: seq<Session>, s: Session, status: SessionStatus)
    ensures CountStatus(ss + [s], status) == CountStatus(ss, status) + (if s.status == status then 1 else 0)
  {
    assert (ss + [s])[..|ss|] == ss;
  }

  lemma {:induction false} CountStatusUpdate(ss: seq<Session>, i: nat, s: Session, status: SessionStatus)
    requires i < |ss|
    ensures CountStatus(ss[i := s], status) ==
            CountStatus(ss, status) - (if ss[i].status == status then 1 else 0) + (if s.status == status then 1 else 0)
  {
    var n := |ss| - 1;
    if i == n {
      assert ss[i := s][..n] == ss[..n];
    } else {
      CountStatusUpdate(ss[..n], i, s, status);
      assert ss[i := s][..n] == ss[..n][i := s];
    }
  }

  function One(b: bool): nat { if b then 1 else 0 }

  /** Exactly one opening per session; a completing event iff Completed; a capping row iff AutoClosed. */
  ghost predicate MarksMatch(ss: seq<Session>, journal: seq<Entry>) {
    && (forall i: nat :: i < |ss| ==>
          && Marks(journal, Mark(Opens, i)) == 1
          && Marks(journal, Mark(Completes, i)) == One(ss[i].status.Completed?)
          && Marks(journal, Mark(Caps, i)) == One(ss[i].status.AutoClosed?))
    && (forall i: nat, f :: i >= |ss| ==> Marks(journal, Mark(f, i)) == 0)
  }

  predicate TalliesMatch(ss: seq<Session>, journal: seq<Entry>) {
    && Accepted(journal, Opens) == |ss|
    && Accepted(journal, Completes) == CountStatus(ss, Completed)
    && Accepted(journal, Caps) == CountStatus(ss, AutoClosed)
  }

  ghost predicate LogMatches(t: Tables) {
    MarksMatch(t.sessions, t.journal) && TalliesMatch(t.sessions, t.journal)
  }

  lemma UnmarkedEntryMatches(t: Tables, e: Entry)
    requires LogMatches(t) && MarkOf(e).None?
    ensures LogMatches(t.(journal := t.journal + [e]))
  {
    forall m { MarksAppend(t.journal, e, m); }
    forall f { AcceptedAppend(t.journal, e, f); }
  }

  lemma OpeningMatches(ss: seq<Session>, journal: seq<Entry>, s: Session, e: Entry)
    requires MarksMatch(ss, journal) && TalliesMatch(ss, journal)
    requires s.status.Active? && MarkOf(e) == Some(Mark(Opens, |ss|))
    ensures MarksMatch(ss + [s], journal + [e]) && TalliesMatch(ss + [s], journal + [e])
  {
    forall m { MarksAppend(journal, e, m); }
    forall f { AcceptedAppend(journal, e, f); }
    forall status { CountStatusAppend(ss, s, status); }
  }

  lemma ClosingMatches(ss: seq<Session>, journal: seq<Entry>, i: nat, s: Session, e: Entry)
    requires MarksMatch(ss, journal) && TalliesMatch(ss, journal)
    requires i < |ss| && ss[i].status.Active? && !s.status.Active?
    requires MarkOf(e) == Some(Mark(if s.status.Completed? then Completes else Caps, i))
    ensures MarksMatch(ss[i := s], journal + [e]) && TalliesMatch(ss[i := s], journal + [e])
  {
    forall m { MarksAppend(journal, e, m); }
    forall f { AcceptedAppend(journal, e, f); }
    forall status { CountStatusUpdate(ss, i, s, status); }
  }

  lemma {:induction false} MarksAfterPurge(journal: seq<Entry>, cutoff: Instant, m: Mark)
    ensures Marks(PurgedJournal(journal, cutoff), m) == Marks(journal, m)
  {
    if journal != [] {
      var n := |journal| - 1;
      MarksAfterPurge(journal[..n], cutoff, m);
      assert PurgedJournal(journal, cutoff)[..n] == PurgedJournal(journal[..n], cutoff);
    }
  }

  lemma {:induction false} AcceptedAfterPurge(journal: seq<Entry>, cutoff: Instant, f: Effect)
    ensures Accepted(PurgedJournal(journal, cutoff), f) == Accepted(journal, f)
  {
    if journal != [] {
      var n := |journal| - 1;
      AcceptedAfterPurge(journal[..n], cutoff, f);
      assert PurgedJournal(journal, cutoff)[..n] == PurgedJournal(journal[..n], cutoff);
    }
  }

  lemma AutoClosedOneMatches(t: Tables, i: nat, hours: int)
    requires LogMatches(t) && RowsConsistent(t.sessions) && i < |t.sessions| && t.sessions[i].Open()
    ensures LogMatches(AutoClosedOne(t, i, hours))
  {
    hide Aggregated, MarksMatch, TalliesMatch;
    var s := t.sessions[i];
    assert RowConsistent(s);
    ClosingMatches(t.sessions, t.journal, i, s.Closed(s.punchIn + Hours(hours), AutoClosed), AutoClose(i, hours));
  }

  lemma {:induction false} AutoClosedAllMatches(t: Tables, ids: seq<nat>, hours: int, clock: Instant)
    requires LogMatches(t) && Consistent(t) && Closable(t.sessions, ids, hours, clock) && 0 < hours
    ensures LogMatches(AutoClosedAll(t, ids, hours))
    decreases |ids|
  {
    hide WithClosed, RowFollows, Aggregated, CacheFollows, OneOpen;
    if ids != [] {
      AutoClosedOneMatches(t, ids[0], hours);
      AutoClosedOneConsistent(t, ids[0], hours);
      ClosableTail(t, ids, hours, clock);
      AutoClosedAllMatches(AutoClosedOne(t, ids[0], hours), ids[1..], hours, clock);
    }
  }

  lemma PunchInMatches(t: Tables, metric: Metric, env: Env, p: Punch)
    requires LogMatches(t) && p.kind.In?
    ensures LogMatches(PunchIn(t, metric, env, p).0)
  {
    forall reason: Option<Code> | reason.Some? {
      UnmarkedEntryMatches(t, RecordOf(p, env.now, None, reason));
    }
    if env.workspace.Some? {
      OpeningMatches(t.sessions, t.journal, NewSession(p.user, LocalDate(env.now, env.workspace.value.offset), env.now),
                     RecordOf(p, env.now, Some(|t.sessions|), None));
    }
  }

  lemma {:induction false} PunchOutMatches(t: Tables, metric: Metric, env: Env, p: Punch)
    requires LogMatches(t) && Consistent(t) && p.kind.Out?
    ensures LogMatches(PunchOut(t, metric, env, p).0)
  {
    forall reason: Option<Code> | reason.Some? {
      UnmarkedEntryMatches(t, RecordOf(p, env.now, None, reason));
    }
    var open := OpenSession(t.sessions, p.user);
    if open.Some? {
      assert RowConsistent(t.sessions[open.value]);
      ClosingMatches(t.sessions, t.journal, open.value, t.sessions[open.value].Closed(env.now, Completed),
                     RecordOf(p, env.now, open, None));
    }
  }

  lemma AutoClosePassMatches(t: Tables, workspace: Option<Workspace>, now: Instant)
    requires LogMatches(t) && Consistent(t)
    ensures LogMatches(AutoClosePass(t, workspace, now))
  {
    hide LogMatches, Consistent, AutoClosedAll, StaleSessions, Closable;
    if workspace.Some? {
      var hours := workspace.value.autoCloseHours;
      var stale := StaleSessions(t.sessions, now - Hours(hours));
      StaleClosable(t.sessions, hours, now);
      assert AutoClosePass(t, workspace, now) == AutoClosedAll(t, stale, hours);
      AutoClosedAllMatches(t, stale, hours, now);
    }
  }

  lemma PurgeMatches(t: Tables, days: nat, now: Instant)
    requires LogMatches(t)
    ensures LogMatches(PurgeLocations(t, days, now))
  {
    forall m { MarksAfterPurge(t.journal, now - Days(days), m); }
    forall f { AcceptedAfterPurge(t.journal, now - Days(days), f); }
  }

  lemma {:induction false} StepMatches(t: Tables, metric: Metric, step: Step)
    requires LogMatches(t) && Consistent(t)
    ensures LogMatches(Next(t, metric, step))
  {
    match step
    case Punching(env, p) =>
      if p.kind.In? { PunchInMatches(t, metric, env, p); } else { PunchOutMatches(t, metric, env, p); }
    case AutoClosing(workspace, now) =>
      AutoClosePassMatches(t, workspace, now);
    case Purging(days, now) =>
      PurgeMatches(t, days, now);
  }

  /** The correspondence of log and sessions holds after every serial run, whatever the timestamps. */
  lemma {:induction false} LogMatchesOnRuns(metric: Metric, steps: seq<Step>)
    ensures LogMatches(Run(EmptyTables, metric, steps))
  {
    if steps != [] {
      var n := |steps| - 1;
      LogMatchesOnRuns(metric, steps[..n]);
      RunConsistent(metric, steps[..n]);
      StepMatches(Run(EmptyTables, metric, steps[..n]), metric, steps[n]);
    }
  }

  function CountOpen(ss: seq<Session>): nat {
    if ss == [] then 0 else CountOpen(ss[..|ss| - 1]) + One(ss[|ss| - 1].Open())
  }

  lemma {:induction false} StatusesPartition(ss: seq<Session>)
    requires RowsConsistent(ss)
    ensures CountOpen(ss) + CountStatus(ss, Completed) + CountStatus(ss, AutoClosed) == |ss|
  {
    if ss != [] {
      StatusesPartition(ss[..|ss| - 1]);
      assert RowConsistent(ss[|ss| - 1]);
    }
  }

  /** Accepted punch-ins, less accepted punch-outs, less automatic closes, are the sessions still open. */
  lemma OpenSessionsConserved(metric: Metric, steps: seq<Step>)
    ensures var t := Run(EmptyTables, metric, steps);
      Accepted(t.journal, Opens) - Accepted(t.journal, Completes) - Accepted(t.journal, Caps) == CountOpen(t.sessions)
  {
    LogMatchesOnRuns(metric, steps);
    RunConsistent(metric, steps);
    StatusesPartition(Run(EmptyTables, metric, steps).sessions);
  }
}
