/** What one punch answers and records. */
module Answers {
  import opened Base
  import opened Clock
  import opened Geofence
  import opened Attendance
  import opened AttendanceInvariants
  import opened Order
  import opened WorkedTime
  import opened ReadModels

  /** The state shown for today says whether a session is open, and otherwise whether today had any. */
  lemma TodayStateMeans(t: Tables, user: UserId, offset: int, now: Instant)
    requires Consistent(t)
    ensures var state := Today(t, user, offset, now).state;
      var k := DayKey(user, LocalDate(now, offset));
      && (state.Present? <==> exists i :: 0 <= i < |t.sessions| && t.sessions[i].user == user && t.sessions[i].Open())
      && (state.CheckedOut? ==> exists i :: 0 <= i < |t.sessions| && t.sessions[i].Day() == k)
      && (state.Absent? ==> forall i :: 0 <= i < |t.sessions| ==> t.sessions[i].Day() != k)
  {
    var k := DayKey(user, LocalDate(now, offset));
    AggregatedShape(t.sessions, k);
    if k in t.days { assert RowFollows(t.sessions, k, t.days[k]); }
  }

  /** A first-time successful punch-in answers with the new open session, begun at the server's instant. */
  lemma PunchInDescribesSession(t: Tables, metric: Metric, env: Env, p: Punch)
    requires Screened(t, env, p).None? && PunchIn(t, metric, env, p).1.Done?
    ensures var (t', r) := PunchIn(t, metric, env, p);
      && r.session == |t.sessions| && |t'.sessions| == |t.sessions| + 1 && t'.sessions[..|t.sessions|] == t.sessions
      && r.row == t'.sessions[r.session]
      && r.row.user == p.user && r.row.Open() && r.row.punchIn == env.now && r.state.Present?
  {
    hide Aggregated, Validate, LastSighting, Settled, Screened;
  }

  /** A first-time successful punch-out answers with the user's session, now closed, and leaves none open. */
  lemma PunchOutDescribesSession(t: Tables, metric: Metric, env: Env, p: Punch)
    requires Consistent(t) && Screened(t, env, p).None? && PunchOut(t, metric, env, p).1.Done?
    ensures var (t', r) := PunchOut(t, metric, env, p);
      && r.session < |t.sessions| == |t'.sessions| && t.sessions[r.session].user == p.user &&
           t.sessions[r.session].Open()
      && r.row == t'.sessions[r.session] == t.sessions[r.session].Closed(env.now, Completed)
      && r.row.punchIn < env.now
      && OpenSession(t'.sessions, p.user).None? && !r.state.Present?
  {
    hide Aggregated, Validate, LastSighting, Settled;
    var t' := PunchOut(t, metric, env, p).0;
    PunchOutConsistent(t, metric, env, p);
    assert forall i :: 0 <= i < |t'.sessions| && t'.sessions[i].user == p.user ==> !t'.sessions[i].Open();
    hide PunchOut, Screened, Consistent;
    TodayStateMeans(t', p.user, env.workspace.value.offset, env.now);
  }

  /** A refusal never touches sessions or days. */
  lemma RefusalKeepsSessions(t: Tables, metric: Metric, env: Env, p: Punch)
    requires Punched(t, metric, env, p).1.Refused?
    ensures Punched(t, metric, env, p).0.sessions == t.sessions && Punched(t, metric, env, p).0.days == t.days
  {
    hide Aggregated, Validate, LastSighting, Settled, Screened, Today;
  }

  /** A punch succeeds for the first time exactly when its guards hold, and only then do sessions or days change. */
  lemma SucceedsExactly(t: Tables, metric: Metric, env: Env, p: Punch)
    ensures var (t', r) := Punched(t, metric, env, p);
      && (Accepts(t, metric, env, p) <==> Screened(t, env, p).None? && r.Done?)
      && (Accepts(t, metric, env, p) <==> t'.sessions != t.sessions)
      && (!Accepts(t, metric, env, p) ==> t'.days == t.days)
  {
    hide Aggregated, Validate, LastSighting, Settled, Screened, Today;
    if Accepts(t, metric, env, p) && p.kind.Out? {
      var i := OpenSession(t.sessions, p.user).value;
      assert Punched(t, metric, env, p).0.sessions[i] != t.sessions[i];
    }
  }

  /**
   The attempt gets past the screening and the check of the session's state, and does not come before the session it
   would close.
   */
  predicate Recordable(t: Tables, metric: Metric, env: Env, p: Punch) {
    && Screened(t, env, p).None?
    && var open := OpenSession(t.sessions, p.user);
       if p.kind.In? then open.None?
       else open.Some? && (VerdictOn(t, metric, env, p).Accepted() ==> t.sessions[open.value].punchIn < env.now)
  }

  /**
   Not every attempt is recorded: an event is written exactly for the recordable ones, and then it is the last one.
   */
  lemma RecordedExactly(t: Tables, metric: Metric, env: Env, p: Punch)
    ensures var (t', r) := Punched(t, metric, env, p);
      && (t'.journal != t.journal <==> Recordable(t, metric, env, p))
      && |t.journal| <= |t'.journal| <= |t.journal| + 1 && t.journal <= t'.journal
      && (Recordable(t, metric, env, p) <==> Screened(t, env, p).None? && (r.Done? || IsReadingCode(r.code)))
  {
    hide Aggregated, LastSighting, Settled, Screened, Today;
  }

  /** Attempts that leave no trace: leaving before entering, entering twice, and leaving at the instant of entering. */
  lemma UnrecordedAttempts(ws: Workspace, now: Instant)
    ensures Next(EmptyTables, NoDistance, Calm(ws, Out, now)) == EmptyTables
    ensures var t := Run(EmptyTables, NoDistance, [Calm(ws, In, now)]);
      && |t.sessions| == |t.journal| == 1
      && Next(t, NoDistance, Calm(ws, In, now + 1)) == t
      && Next(t, NoDistance, Calm(ws, Out, now)) == t
  {
    hide Aggregated, Today, LastSighting;
    var enter := Calm(ws, In, now);
    assert [] + [enter] == [enter];
    RunAppend(EmptyTables, NoDistance, [], enter);
    CalmPunchIn(EmptyTables, ws, now);
    hide Run;
    var t := Run(EmptyTables, NoDistance, [enter]);
    assert t.sessions == [NewSession(0, LocalDate(now, ws.offset), now)];
  }

  // ----------------------------------------------------- answers in figures

  /** What a success, first-time or replayed, shows: a session row as it now is, the user's state and today's total. */
  ghost predicate ShowsNow(t: Tables, user: UserId, offset: int, now: Instant, r: Reply) {
    var d := LocalDate(now, offset);
    && r.Done? && r.session < |t.sessions| && r.row == t.sessions[r.session]
    && r.today == ElapsedBetween(t.sessions, user, d, d, now)
    && (r.state.Present? <==> exists i :: 0 <= i < |t.sessions| && t.sessions[i].user == user && t.sessions[i].Open())
    && (r.state.CheckedOut? ==> exists i :: 0 <= i < |t.sessions| && t.sessions[i].Day() == DayKey(user, d))
    && (r.state.Absent? ==> forall i :: 0 <= i < |t.sessions| ==> t.sessions[i].Day() != DayKey(user, d))
  }

  lemma OutcomeShowsNow(t: Tables, user: UserId, offset: int, now: Instant, session: nat)
    requires Consistent(t) && DatesLocal(t.sessions, offset) && session < |t.sessions|
    ensures ShowsNow(t, user, offset, now, Outcome(t, user, offset, now, session))
  {
    hide Consistent, DatesLocal, Today;
    var d := LocalDate(now, offset);
    TodayIsTodaysHistory(t, user, offset, now);
    HistoryIsElapsed(t, user, d, d, now);
    TodayStateMeans(t, user, offset, now);
  }

  lemma PunchKeepsDates(t: Tables, metric: Metric, env: Env, p: Punch)
    requires env.workspace.Some? && DatesLocal(t.sessions, env.workspace.value.offset)
    ensures DatesLocal(Punched(t, metric, env, p).0.sessions, env.workspace.value.offset)
  {
    PunchShape(t, metric, env, p);
    hide Punched, Accepts;
    var t' := Punched(t, metric, env, p).0;
    if !(p.kind.In? && Accepts(t, metric, env, p)) {
      assert forall i :: 0 <= i < |t.sessions| ==> SameOrClosed(t.sessions[i], t'.sessions[i]);
    }
  }

  /**
   Every success answer, first-time or replayed, shows today's elapsed seconds, the user's state and the session row.
   */
  lemma SuccessShowsNow(t: Tables, metric: Metric, env: Env, p: Punch)
    requires Consistent(t) && Punched(t, metric, env, p).1.Done?
    requires env.workspace.Some? ==> DatesLocal(t.sessions, env.workspace.value.offset)
    ensures env.workspace.Some?
    ensures var (t', r) := Punched(t, metric, env, p); ShowsNow(t', p.user, env.workspace.value.offset, env.now, r)
  {
    DoneIsOutcome(t, metric, env, p);
    StepConsistent(t, metric, Punching(env, p));
    PunchKeepsDates(t, metric, env, p);
    var (t', r) := Punched(t, metric, env, p);
    hide Punched, Consistent, Outcome, ShowsNow, DatesLocal;
    OutcomeShowsNow(t', p.user, env.workspace.value.offset, env.now, r.session);
  }

  lemma DoneIsOutcome(t: Tables, metric: Metric, env: Env, p: Punch)
    requires Punched(t, metric, env, p).1.Done?
    ensures var (t', r) := Punched(t, metric, env, p);
      && env.workspace.Some? && r.session < |t'.sessions|
      && r == Outcome(t', p.user, env.workspace.value.offset, env.now, r.session)
      && Punched(t, metric, env, p).0 == Next(t, metric, Punching(env, p))
  {
    hide Aggregated, Validate, LastSighting, Settled, Today;
  }

  // ------------------------------------------------------------ error codes

  /** The request is heard: there is a workspace, the account is enabled and the key, if any, is new. */
  predicate Heard(t: Tables, env: Env, p: Punch) {
    && env.workspace.Some? && env.account.Enabled?
    && (p.key.Some? ==> forall e :: e in t.journal && e.Attempt? && e.event.user == p.user ==> e.event.key != p.key)
  }

  /** What every request is answered: the checks in their order, each with its code. */
  lemma AnswerCodes(t: Tables, metric: Metric, env: Env, p: Punch)
    ensures var r := Punched(t, metric, env, p).1;
      var open := OpenSession(t.sessions, p.user);
      && (env.workspace.None? ==> r == Refused(WorkspaceNotConfigured))
      && (env.workspace.Some? && env.account.Missing? ==> r == Refused(Conflict))
      && (env.workspace.Some? && env.account.Disabled? ==> r == Refused(UserDisabled))
      && (Heard(t, env, p) && p.kind.In? && open.Some? ==> r == Refused(AlreadyPunchedIn))
      && (Heard(t, env, p) && p.kind.Out? && open.None? ==> r == Refused(NoActiveSession))
      && (Heard(t, env, p) && p.kind.In? == open.None? ==>
            var code := VerdictOn(t, metric, env, p).code;
            if code.Some? then r == Refused(code.value)
            else if p.kind.Out? && env.now <= t.sessions[open.value].punchIn then r == Refused(Conflict)
            else r.Done?)
  {
    hide Aggregated, Validate, LastSighting, Today;
  }

  /** What a settled key is answered: the recorded refusal, the recorded session, or a duplicate without one. */
  lemma ReplayAnswers(t: Tables, metric: Metric, env: Env, p: Punch)
    requires env.workspace.Some? && env.account.Enabled?
    requires p.key.Some? && Settled(t.journal, p.user, p.key.value).Some?
    ensures var e := Settled(t.journal, p.user, p.key.value).value;
      var r := Punched(t, metric, env, p).1;
      if e.reason.Some? then r == Refused(e.reason.value)
      else if e.session.Some? && e.session.value < |t.sessions| then r.Done? && r.session == e.session.value
      else r == Refused(DuplicateRequest)
  {
    hide Aggregated, Validate, LastSighting, Today, Settled;
  }

  /** What the view of today names as running: the user's open session, if any, and for how long. */
  lemma TodayShowsRunning(t: Tables, user: UserId, offset: int, now: Instant)
    ensures var v := Today(t, user, offset, now);
      if v.open.None? then
        v.activeElapsed == 0 && forall i :: 0 <= i < |t.sessions| && t.sessions[i].user == user ==>
          !t.sessions[i].Open()
      else
        && v.open.value < |t.sessions|
        && t.sessions[v.open.value].user == user && t.sessions[v.open.value].Open()
        && v.activeElapsed == Max(0, WholeSeconds(now - t.sessions[v.open.value].punchIn))
  {
  }
}
