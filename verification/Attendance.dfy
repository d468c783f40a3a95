/**
 The attendance tables as a value, and every operation on them as a function from state to state.
 The imperative service in AttendanceService.dfy is proved equal to these functions; what the
 service promises over whole runs is proved about them.
 */
module Attendance {
  import opened Base
  import opened Clock
  import opened Geofence

  datatype SessionStatus = Active | Completed | AutoClosed

  datatype DayStatus = Absent | Present | CheckedOut

  datatype PunchType = In | Out

  datatype DayKey = DayKey(user: UserId, date: Date)

  /** One punch-in/punch-out pair. A session's id is its position in the table. */
  datatype Session = Session(
    user: UserId,
    date: Date,
    punchIn: Instant,
    punchOut: Option<Instant>,
    duration: Option<int>,
    status: SessionStatus)
  {
    predicate Open() { punchOut.None? }

    function Day(): DayKey { DayKey(user, date) }

    function Closed(end: Instant, how: SessionStatus): Session {
      this.(punchOut := Some(end), duration := Some(WholeSeconds(end - punchIn)), status := how)
    }
  }

  function NewSession(user: UserId, date: Date, now: Instant): Session {
    Session(user, date, now, None, None, Active)
  }

  /** The cached row of one user and one local date. */
  datatype Day = Day(
    status: DayStatus,
    total: int,
    firstIn: Option<Instant>,
    lastOut: Option<Instant>,
    late: bool)

  const EmptyDay := Day(Absent, 0, None, None, false)

  /** A recorded punch attempt. */
  datatype Event = Event(
    user: UserId,
    session: Option<nat>,
    kind: PunchType,
    at: Instant,
    place: Option<Place>,
    reason: Option<Code>,
    key: Option<Key>,
    purged: bool)
  {
    predicate Accepted() { reason.None? }
  }

  /** The append-only tables in commit order: punch events, and the audit rows of automatic closes. */
  datatype Entry =
    | Attempt(event: Event)
    | AutoClose(session: nat, hours: int)

  datatype Tables = Tables(sessions: seq<Session>, days: map<DayKey, Day>, journal: seq<Entry>)

  const EmptyTables := Tables([], map[], [])

  /** What the locked user row says. */
  datatype Account = Missing | Disabled | Enabled

  /** Everything a punch reads besides the attendance tables. */
  datatype Env = Env(workspace: Option<Workspace>, account: Account, now: Instant)

  datatype Punch = Punch(user: UserId, kind: PunchType, key: Option<Key>, place: Place, accuracy: real)

  datatype Reply =
    | Done(session: nat, row: Session, state: DayStatus, today: int)
    | Refused(code: Code)

  // ------------------------------------------------------------------ queries

  /** The open session of a user, if any. */
  function OpenSession(ss: seq<Session>, user: UserId): (r: Option<nat>)
    ensures r.Some? ==> r.value < |ss| && ss[r.value].user == user && ss[r.value].Open()
    ensures r.None? ==> forall i :: 0 <= i < |ss| && ss[i].user == user ==> !ss[i].Open()
  {
    if ss == [] then None
    else if ss[|ss| - 1].user == user && ss[|ss| - 1].Open() then Some(|ss| - 1)
    else OpenSession(ss[..|ss| - 1], user)
  }

  /** The first event recorded under an idempotency key. */
  function Settled(journal: seq<Entry>, user: UserId, key: Key): (r: Option<Event>)
    ensures r.Some? ==> r.value.user == user && r.value.key == Some(key) && Attempt(r.value) in journal
    ensures r.None? ==> forall e :: e in journal && e.Attempt? && e.event.user == user ==> e.event.key != Some(key)
  {
    if journal == [] then None else
    var earlier := Settled(journal[..|journal| - 1], user, key);
    var last := journal[|journal| - 1];
    if earlier.Some? then earlier
    else if last.Attempt? && last.event.user == user && last.event.key == Some(key) then Some(last.event)
    else None
  }

  predicate Located(entry: Entry, user: UserId) {
    entry.Attempt? && entry.event.user == user && entry.event.Accepted() && entry.event.place.Some? &&
      !entry.event.purged
  }

  /** The most recent accepted punch that still has its coordinates. */
  function LastSighting(journal: seq<Entry>, user: UserId): (r: Option<Sighting>)
    ensures r.None? ==> forall e :: e in journal ==> !Located(e, user)
    ensures r.Some? ==> forall e :: e in journal && Located(e, user) ==> e.event.at <= r.value.at
  {
    if journal == [] then None else
    var earlier := LastSighting(journal[..|journal| - 1], user);
    var last := journal[|journal| - 1];
    if Located(last, user) && (earlier.None? || earlier.value.at <= last.event.at)
    then Some(Sighting(last.event.place.value, last.event.at))
    else earlier
  }

  /** Seconds a session has lasted so far. */
  function Elapsed(s: Session, now: Instant): int {
    if s.punchOut.Some? then
      if s.duration.Some? then s.duration.value else 0
    else
      Max(0, WholeSeconds(now - s.punchIn))
  }

  predicate IsLate(t: Instant, ws: Workspace) {
    LocalMinute(t, ws.offset) > ws.startMinute + ws.lateThreshold
  }

  // -------------------------------------------------------- the day aggregate

  /** The aggregates the recomputation selects over the sessions of one day. */
  datatype Aggregate = Aggregate(total: int, firstIn: Option<Instant>, lastOut: Option<Instant>, open: nat, count: nat)

  const NoSessions := Aggregate(0, None, None, 0, 0)

  function Earlier(a: Option<Instant>, b: Instant): Option<Instant> {
    if a.Some? then Some(Min(a.value, b)) else Some(b)
  }

  function Later(a: Option<Instant>, b: Option<Instant>): Option<Instant> {
    if a.Some? && b.Some? then Some(Max(a.value, b.value)) else if a.Some? then a else b
  }

  function Add(a: Aggregate, s: Session): Aggregate {
    Aggregate(
      a.total + (if s.duration.Some? then s.duration.value else 0),
      Earlier(a.firstIn, s.punchIn),
      Later(a.lastOut, s.punchOut),
      a.open + (if s.Open() then 1 else 0),
      a.count + 1)
  }

  function Aggregated(ss: seq<Session>, k: DayKey): Aggregate {
    if ss == [] then NoSessions else
    var rest := Aggregated(ss[..|ss| - 1], k);
    if ss[|ss| - 1].Day() == k then Add(rest, ss[|ss| - 1]) else rest
  }

  function StatusOf(a: Aggregate): DayStatus {
    if a.open > 0 then Present else if a.count > 0 then CheckedOut else Absent
  }

  /** The row `recompute_day_totals` leaves behind. */
  function Recomputed(ss: seq<Session>, k: DayKey, row: Day): Day {
    var a := Aggregated(ss, k);
    Day(StatusOf(a), a.total, a.firstIn, a.lastOut, row.late)
  }

  // ---------------------------------------------------------------- read model

  datatype TodayView = TodayView(state: DayStatus, total: int, open: Option<nat>, activeElapsed: int)

  function Today(t: Tables, user: UserId, offset: int, now: Instant): TodayView {
    var today := LocalDate(now, offset);
    var k := DayKey(user, today);
    var closed := if k in t.days then t.days[k].total else 0;
    match OpenSession(t.sessions, user)
    case Some(i) =>
      var running := Elapsed(t.sessions[i], now);
      var startedToday := LocalDate(t.sessions[i].punchIn, offset) == today;
      TodayView(Present, closed + (if startedToday then running else 0), Some(i), running)
    case None =>
      TodayView(if k in t.days then t.days[k].status else Absent, closed, None, 0)
  }

  function Outcome(t: Tables, user: UserId, offset: int, now: Instant, session: nat): Reply
    requires session < |t.sessions|
  {
    var view := Today(t, user, offset, now);
    Done(session, t.sessions[session], view.state, view.total)
  }

  /** The answer to a request whose key is already settled. */
  function Replayed(t: Tables, user: UserId, offset: int, now: Instant, e: Event): Reply {
    if e.reason.Some? then Refused(e.reason.value)
    else if e.session.None? || e.session.value >= |t.sessions| then Refused(DuplicateRequest)
    else Outcome(t, user, offset, now, e.session.value)
  }

  // --------------------------------------------------------------- operations

  function RecordOf(p: Punch, now: Instant, session: Option<nat>, reason: Option<Code>): Entry {
    Attempt(Event(p.user, session, p.kind, now, Some(p.place), reason, p.key, false))
  }

  /** The checks both punches start with: an answer when one of them ends the request. */
  function Screened(t: Tables, env: Env, p: Punch): Option<Reply> {
    if env.workspace.None? then Some(Refused(WorkspaceNotConfigured))
    else if env.account.Missing? then Some(Refused(Conflict))
    else if env.account.Disabled? then Some(Refused(UserDisabled))
    else if p.key.Some? && Settled(t.journal, p.user, p.key.value).Some? then
      Some(Replayed(t, p.user, env.workspace.value.offset, env.now, Settled(t.journal, p.user, p.key.value).value))
    else None
  }

  function VerdictOn(t: Tables, metric: Metric, env: Env, p: Punch): Verdict
    requires env.workspace.Some?
  {
    Validate(metric, env.workspace.value, p.place, p.accuracy, env.now, LastSighting(t.journal, p.user))
  }

  function AfterRefusal(t: Tables, now: Instant, p: Punch, code: Code): Tables {
    t.(journal := t.journal + [RecordOf(p, now, None, Some(code))])
  }

  /** The tables after an accepted punch-in: a new open session, and the cached row patched, not recomputed. */
  function AfterPunchIn(t: Tables, ws: Workspace, now: Instant, p: Punch): Tables {
    var s := NewSession(p.user, LocalDate(now, ws.offset), now);
    var row := if s.Day() in t.days then t.days[s.Day()] else EmptyDay;
    var patched :=
      if row.firstIn.None?
      then row.(status := Present, firstIn := Some(now), late := IsLate(now, ws))
      else row.(status := Present);
    Tables(
      t.sessions + [s],
      t.days[s.Day() := patched],
      t.journal + [RecordOf(p, now, Some(|t.sessions|), None)])
  }

  /** One session closed and its day recomputed from scratch. */
  function WithClosed(t: Tables, i: nat, end: Instant, how: SessionStatus): Tables
    requires i < |t.sessions|
  {
    var ss := t.sessions[i := t.sessions[i].Closed(end, how)];
    var k := ss[i].Day();
    t.(sessions := ss, days := if k in t.days then t.days[k := Recomputed(ss, k, t.days[k])] else t.days)
  }

  function AfterPunchOut(t: Tables, i: nat, now: Instant, p: Punch): Tables
    requires i < |t.sessions|
  {
    WithClosed(t, i, now, Completed).(journal := t.journal + [RecordOf(p, now, Some(i), None)])
  }

  function PunchIn(t: Tables, metric: Metric, env: Env, p: Punch): (Tables, Reply) {
    var screened := Screened(t, env, p);
    if screened.Some? then (t, screened.value)
    else if OpenSession(t.sessions, p.user).Some? then (t, Refused(AlreadyPunchedIn))
    else
      var verdict := VerdictOn(t, metric, env, p);
      if !verdict.Accepted() then (AfterRefusal(t, env.now, p, verdict.code.value), Refused(verdict.code.value))
      else
        var t' := AfterPunchIn(t, env.workspace.value, env.now, p);
        (t', Outcome(t', p.user, env.workspace.value.offset, env.now, |t.sessions|))
  }

  function PunchOut(t: Tables, metric: Metric, env: Env, p: Punch): (Tables, Reply) {
    var screened := Screened(t, env, p);
    if screened.Some? then (t, screened.value)
    else match OpenSession(t.sessions, p.user)
      case None => (t, Refused(NoActiveSession))
      case Some(i) =>
        var verdict := VerdictOn(t, metric, env, p);
        if !verdict.Accepted() then (AfterRefusal(t, env.now, p, verdict.code.value), Refused(verdict.code.value))
        else if env.now <= t.sessions[i].punchIn then (t, Refused(Conflict))
        else
          var t' := AfterPunchOut(t, i, env.now, p);
          (t', Outcome(t', p.user, env.workspace.value.offset, env.now, i))
  }

  function Punched(t: Tables, metric: Metric, env: Env, p: Punch): (Tables, Reply) {
    if p.kind.In? then PunchIn(t, metric, env, p) else PunchOut(t, metric, env, p)
  }

  /** The guards of a punch that takes effect, all of them checkable beforehand. */
  predicate Accepts(t: Tables, metric: Metric, env: Env, p: Punch) {
    && Screened(t, env, p).None?
    && VerdictOn(t, metric, env, p).Accepted()
    && var open := OpenSession(t.sessions, p.user);
       if p.kind.In? then open.None? else open.Some? && t.sessions[open.value].punchIn < env.now
  }

  predicate Stale(s: Session, cutoff: Instant) {
    s.Open() && s.punchIn < cutoff && s.status.Active?
  }

  /** Ids of the stale open sessions, each once. */
  function StaleSessions(ss: seq<Session>, cutoff: Instant): (ids: seq<nat>)
    ensures forall a :: 0 <= a < |ids| ==> ids[a] < |ss| && Stale(ss[ids[a]], cutoff)
    ensures forall i :: 0 <= i < |ss| && Stale(ss[i], cutoff) ==> i in ids
    ensures forall a, b :: 0 <= a < b < |ids| ==> ids[a] < ids[b]
  {
    if ss == [] then [] else
    var n := |ss| - 1;
    var rest := StaleSessions(ss[..n], cutoff);
    if Stale(ss[n], cutoff) then rest + [n] else rest
  }

  /** One automatic close: the session ends `hours` after it began, whatever the clock says now. */
  function AutoClosedOne(t: Tables, i: nat, hours: int): Tables
    requires i < |t.sessions|
  {
    WithClosed(t, i, t.sessions[i].punchIn + Hours(hours), AutoClosed).(journal := t.journal + [AutoClose(i, hours)])
  }

  function AutoClosedAll(t: Tables, ids: seq<nat>, hours: int): (t': Tables)
    requires forall a :: 0 <= a < |ids| ==> ids[a] < |t.sessions|
    ensures |t'.sessions| == |t.sessions|
    decreases |ids|
  {
    if ids == [] then t else AutoClosedAll(AutoClosedOne(t, ids[0], hours), ids[1..], hours)
  }

  /** The maintenance pass over stale sessions; without a workspace it fails before changing anything. */
  function AutoClosePass(t: Tables, workspace: Option<Workspace>, now: Instant): Tables {
    match workspace
    case None => t
    case Some(ws) =>
      AutoClosedAll(t, StaleSessions(t.sessions, now - Hours(ws.autoCloseHours)), ws.autoCloseHours)
  }

  function Forgotten(e: Event): Event { e.(place := None, purged := true) }

  function PurgedEntry(e: Entry, cutoff: Instant): Entry {
    if e.Attempt? && e.event.at < cutoff && !e.event.purged then Attempt(Forgotten(e.event)) else e
  }

  function PurgedJournal(journal: seq<Entry>, cutoff: Instant): (j: seq<Entry>)
    ensures |j| == |journal|
    ensures forall i :: 0 <= i < |j| ==> j[i] == PurgedEntry(journal[i], cutoff)
  {
    seq(|journal|, i requires 0 <= i < |journal| => PurgedEntry(journal[i], cutoff))
  }

  function PurgeLocations(t: Tables, retentionDays: nat, now: Instant): Tables {
    t.(journal := PurgedJournal(t.journal, now - Days(retentionDays)))
  }

  // --------------------------------------------------------------------- runs

  datatype Step =
    | Punching(env: Env, punch: Punch)
    | AutoClosing(workspace: Option<Workspace>, at: Instant)
    | Purging(retentionDays: nat, when: Instant)
  {
    function Now(): Instant {
      match this case Punching(env, _) => env.now case AutoClosing(_, at) => at case Purging(_, when) => when
    }
  }

  function Next(t: Tables, metric: Metric, step: Step): Tables {
    match step
    case Punching(env, p) => Punched(t, metric, env, p).0
    case AutoClosing(ws, now) => AutoClosePass(t, ws, now)
    case Purging(days, now) => PurgeLocations(t, days, now)
  }

  /** The state after a sequence of serialised steps. */
  function Run(t: Tables, metric: Metric, steps: seq<Step>): Tables {
    if steps == [] then t else Next(Run(t, metric, steps[..|steps| - 1]), metric, steps[|steps| - 1])
  }

  lemma RunAppend(t: Tables, metric: Metric, steps: seq<Step>, step: Step)
    ensures Run(t, metric, steps + [step]) == Next(Run(t, metric, steps), metric, step)
  {
    assert (steps + [step])[..|steps|] == steps;
  }

  /** Timestamps follow the serialisation order. */
  ghost predicate Monotone(steps: seq<Step>) {
    forall i, j :: 0 <= i < j < |steps| ==> steps[i].Now() <= steps[j].Now()
  }
}
