/** The punch service: the step-by-step updates of the three tables, proved equal to the functions of `Attendance`. */
module AttendanceService {
  import opened Base
  import opened Clock
  import opened Geofence
  import opened Attendance
  import opened AttendanceInvariants

  class Service {
    var sessions: seq<Session>
    var days: map<DayKey, Day>
    /** Punch events and automatic-close audit rows, in commit order. */
    var journal: seq<Entry>

    function State(): Tables reads this { Tables(sessions, days, journal) }

    constructor ()
      ensures State() == EmptyTables
    {
      sessions, days, journal := [], map[], [];
    }

    /** Upsert on (user, date): an existing row is kept as it is. */
    method GetOrCreateDay(user: UserId, date: Date) returns (k: DayKey)
      modifies this`days
      ensures k == DayKey(user, date)
      ensures days == if k in old(days) then old(days) else old(days)[k := EmptyDay]
    {
      k := DayKey(user, date);
      if k !in days {
        days := days[k := Day(Absent, 0, None, None, false)];
      }
    }

    /** Derived day fields rewritten from the sessions of that day; lateness is not derived and stays. */
    method RecomputeDayTotals(k: DayKey)
      requires k in days
      modifies this`days
      ensures days == old(days)[k := Recomputed(sessions, k, old(days)[k])]
    {
      var totals := Aggregated(sessions, k);
      var row := days[k];
      row := row.(total := totals.total);
      row := row.(firstIn := totals.firstIn);
      row := row.(lastOut := totals.lastOut);
      if totals.open != 0 {
        row := row.(status := Present);
      } else if totals.count != 0 {
        row := row.(status := CheckedOut);
      } else {
        row := row.(status := Absent);
      }
      days := days[k := row];
    }

    method RecordEvent(p: Punch, now: Instant, session: Option<nat>, reason: Option<Code>)
      modifies this`journal
      ensures journal == old(journal) + [RecordOf(p, now, session, reason)]
    {
      journal := journal + [Attempt(Event(p.user, session, p.kind, now, Some(p.place), reason, p.key, false))];
    }

    /** The state shown for today: a running session counts toward today only if it began today. */
    method TodayState(user: UserId, offset: int, now: Instant) returns (view: TodayView)
      ensures view == Today(State(), user, offset, now)
    {
      var today := LocalDate(now, offset);
      var open := OpenSession(sessions, user);
      var k := DayKey(user, today);
      var total := 0;
      if k in days {
        total := days[k].total;
      }
      var activeElapsed := 0;
      if open.Some? {
        activeElapsed := Elapsed(sessions[open.value], now);
        if LocalDate(sessions[open.value].punchIn, offset) == today {
          total := total + activeElapsed;
        }
      }
      var state := Absent;
      if open.Some? {
        state := Present;
      } else if k in days && !days[k].status.Absent? {
        state := days[k].status;
      }
      view := TodayView(state, total, open, activeElapsed);
    }

    method OutcomeOf(user: UserId, offset: int, now: Instant, session: nat) returns (r: Reply)
      requires session < |sessions|
      ensures r == Outcome(State(), user, offset, now, session)
    {
      var view := TodayState(user, offset, now);
      r := Done(session, sessions[session], view.state, view.total);
    }

    /** Replay of an already-processed request: nothing changes, the original result is returned. */
    method DuplicateOutcome(user: UserId, offset: int, now: Instant, existing: Event) returns (r: Reply)
      ensures r == Replayed(State(), user, offset, now, existing)
    {
      if existing.reason.Some? {
        return Refused(existing.reason.value);
      }
      if existing.session.None? || existing.session.value >= |sessions| {
        return Refused(DuplicateRequest);
      }
      r := OutcomeOf(user, offset, now, existing.session.value);
    }

    /** Workspace, account and idempotency checks shared by both punches. */
    method Screen(env: Env, p: Punch) returns (ended: Option<Reply>)
      ensures ended == Screened(State(), env, p)
    {
      if env.workspace.None? { return Some(Refused(WorkspaceNotConfigured)); }
      match env.account {
        case Missing => return Some(Refused(Conflict));
        case Disabled => return Some(Refused(UserDisabled));
        case Enabled =>
      }
      if p.key.Some? {
        var existing := Settled(journal, p.user, p.key.value);
        if existing.Some? {
          var r := DuplicateOutcome(p.user, env.workspace.value.offset, env.now, existing.value);
          return Some(r);
        }
      }
      return None;
    }

    method PunchIn(metric: Metric, env: Env, p: Punch) returns (r: Reply)
      modifies this
      ensures (State(), r) == Attendance.PunchIn(old(State()), metric, env, p)
    {
      var ended := Screen(env, p);
      if ended.Some? { return ended.value; }
      var ws, now := env.workspace.value, env.now;
      if OpenSession(sessions, p.user).Some? { return Refused(AlreadyPunchedIn); }

      var verdict := Validate(metric, ws, p.place, p.accuracy, now, LastSighting(journal, p.user));
      if !verdict.Accepted() {
        RecordEvent(p, now, None, verdict.code);
        return Refused(verdict.code.value);
      }

      var k := GetOrCreateDay(p.user, LocalDate(now, ws.offset));
      var session := |sessions|;
      sessions := sessions + [NewSession(p.user, k.date, now)];
      if days[k].firstIn.None? {
        days := days[k := days[k].(firstIn := Some(now))];
        days := days[k := days[k].(late := IsLate(now, ws))];
      }
      days := days[k := days[k].(status := Present)];
      RecordEvent(p, now, Some(session), None);
      assert State() == AfterPunchIn(old(State()), ws, now, p);
      r := OutcomeOf(p.user, ws.offset, now, session);
    }

    /** One session row gets its end, whole seconds and status, and then its day row is recomputed. */
    method CloseSession(i: nat, end: Instant, how: SessionStatus)
      requires i < |sessions|
      modifies this`sessions, this`days
      ensures State() == WithClosed(old(State()), i, end, how)
    {
      var row := sessions[i];
      row := row.(punchOut := Some(end));
      row := row.(duration := Some(WholeSeconds(end - row.punchIn)));
      row := row.(status := how);
      sessions := sessions[i := row];
      if row.Day() in days {
        RecomputeDayTotals(row.Day());
      }
    }

    method PunchOut(metric: Metric, env: Env, p: Punch) returns (r: Reply)
      modifies this
      ensures (State(), r) == Attendance.PunchOut(old(State()), metric, env, p)
    {
      var ended := Screen(env, p);
      if ended.Some? { return ended.value; }
      var ws, now := env.workspace.value, env.now;
      var open := OpenSession(sessions, p.user);
      if open.None? { return Refused(NoActiveSession); }

      var verdict := Validate(metric, ws, p.place, p.accuracy, now, LastSighting(journal, p.user));
      if !verdict.Accepted() {
        RecordEvent(p, now, None, verdict.code);
        return Refused(verdict.code.value);
      }
      if now <= sessions[open.value].punchIn { return Refused(Conflict); }

      CloseSession(open.value, now, Completed);
      RecordEvent(p, now, open, None);
      r := OutcomeOf(p.user, ws.offset, now, open.value);
    }

    method AutoCloseSession(i: nat, hours: int)
      requires i < |sessions|
      modifies this
      ensures State() == AutoClosedOne(old(State()), i, hours)
    {
      CloseSession(i, sessions[i].punchIn + Hours(hours), AutoClosed);
      journal := journal + [AutoClose(i, hours)];
    }

    method AutoCloseEach(stale: seq<nat>, hours: int)
      requires forall a :: 0 <= a < |stale| ==> stale[a] < |sessions|
      modifies this
      ensures State() == AutoClosedAll(old(State()), stale, hours)
    {
      ghost var goal := AutoClosedAll(State(), stale, hours);
      var a := 0;
      assert stale[0..] == stale;
      while a < |stale|
        invariant 0 <= a <= |stale|
        invariant |sessions| == |old(sessions)|
        invariant forall b :: 0 <= b < |stale[a..]| ==> stale[a..][b] < |sessions|
        invariant AutoClosedAll(State(), stale[a..], hours) == goal
      {
        assert stale[a..][1..] == stale[a + 1..];
        AutoCloseSession(stale[a], hours);
        a := a + 1;
      }
    }

    /** Closes every session left open past the cutoff, capped at the cutoff, and says how many. */
    method AutoCloseStaleSessions(workspace: Option<Workspace>, now: Instant) returns (closed: nat)
      modifies this
      ensures State() == AutoClosePass(old(State()), workspace, now)
      ensures workspace.Some? ==> closed == |StaleSessions(old(sessions), now - Hours(workspace.value.autoCloseHours))|
    {
      hide AutoClosedAll, StaleSessions;
      if workspace.None? { return 0; }
      var hours := workspace.value.autoCloseHours;
      var stale := StaleSessions(sessions, now - Hours(hours));
      closed := |stale|;
      ghost var before := State();
      assert AutoClosePass(before, workspace, now) == AutoClosedAll(before, stale, hours);
      AutoCloseEach(stale, hours);
    }

    /** Erases coordinates of events past the retention window. */
    method PurgeLocationData(retentionDays: nat, now: Instant) returns (erased: nat)
      modifies this`journal
      ensures State() == PurgeLocations(old(State()), retentionDays, now)
      ensures erased == |set i | 0 <= i < |journal| && journal[i] != old(journal)[i]|
    {
      ghost var before := journal;
      var cutoff := now - Days(retentionDays);
      var due := set i | 0 <= i < |journal| && journal[i].Attempt? && journal[i].event.at < cutoff &&
        !journal[i].event.purged;
      erased := |due|;
      journal := PurgedJournal(journal, cutoff);
      assert (set i | 0 <= i < |journal| && journal[i] != before[i]) == due;
    }
  }
}
