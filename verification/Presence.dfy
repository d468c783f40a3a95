/** The dashboard's presence snapshot: a partition of the active users that agrees with each user's own view. */
module Presence {
  import opened Base
  import opened Clock
  import opened Geofence
  import opened Attendance
  import opened AttendanceInvariants
  import opened WorkedTime
  import opened ReadModels

  datatype Team = Executive | Core | Member

  datatype Person = Person(id: UserId, team: Team)

  datatype Line = Line(person: Person, state: DayStatus, late: bool, sessions: nat, elapsed: int, total: int)

  datatype TeamCount = TeamCount(team: Team, total: nat, present: nat, absent: nat, checkedOut: nat)

  datatype Snapshot = Snapshot(present: seq<Line>, absent: seq<Line>, checkedOut: seq<Line>, breakdown: seq<TeamCount>)

  /** The line the snapshot builds for one user, from the open session and today's day row. */
  function LineOf(t: Tables, p: Person, offset: int, now: Instant): Line {
    var k := DayKey(p.id, LocalDate(now, offset));
    var sessions := if k in t.days then DaySessions(t.sessions, k) else [];
    var late := k in t.days && t.days[k].late;
    var open := OpenSession(t.sessions, p.id);
    if open.Some? then
      var running := Elapsed(t.sessions[open.value], now);
      Line(p, Present, late, |sessions|, running, (if k in t.days then t.days[k].total else 0) + running)
    else if sessions != [] then
      Line(p, CheckedOut, late, |sessions|, 0, t.days[k].total)
    else
      Line(p, Absent, late, |sessions|, 0, 0)
  }

  /** The lines of those users whose state is `state`, in the order of `people`. */
  function LinesWith(t: Tables, people: seq<Person>, offset: int, now: Instant, state: DayStatus): (r: seq<Line>)
    ensures forall i :: 0 <= i < |r| ==> r[i].state == state
  {
    if people == [] then [] else
    var rest := LinesWith(t, people[..|people| - 1], offset, now, state);
    var line := LineOf(t, people[|people| - 1], offset, now);
    if line.state == state then rest + [line] else rest
  }

  function InTeam(lines: seq<Line>, team: Team): nat {
    if lines == [] then 0 else
    InTeam(lines[..|lines| - 1], team) + (if lines[|lines| - 1].person.team == team then 1 else 0)
  }

  function MembersOf(people: seq<Person>, team: Team): nat {
    if people == [] then 0 else
    MembersOf(people[..|people| - 1], team) + (if people[|people| - 1].team == team then 1 else 0)
  }

  function CountTeam(people: seq<Person>, present: seq<Line>, absent: seq<Line>, checkedOut: seq<Line>,
        team: Team): TeamCount {
    TeamCount(team, MembersOf(people, team), InTeam(present, team), InTeam(absent, team), InTeam(checkedOut, team))
  }

  const TEAMS: seq<Team> := [Executive, Core, Member]

  /** How many of a team's people are in a state, by their own view of today. */
  function InState(t: Tables, people: seq<Person>, offset: int, now: Instant, team: Team, state: DayStatus): nat {
    if people == [] then 0 else
    var p := people[|people| - 1];
    InState(t, people[..|people| - 1], offset, now, team, state)
    + (if p.team == team && Today(t, p.id, offset, now).state == state then 1 else 0)
  }

  function CountIn(c: TeamCount, state: DayStatus): nat {
    match state case Present => c.present case Absent => c.absent case CheckedOut => c.checkedOut
  }

  /** A team's figures: its people, and how many of them are in each state by their own view. */
  ghost predicate Counts(t: Tables, people: seq<Person>, offset: int, now: Instant, c: TeamCount) {
    && c.total == MembersOf(people, c.team)
    && forall state :: CountIn(c, state) == InState(t, people, offset, now, c.team, state)
  }

  function Column(breakdown: seq<TeamCount>, state: DayStatus): nat {
    if breakdown == [] then 0 else CountIn(breakdown[0], state) + Column(breakdown[1..], state)
  }

  function SumTotals(breakdown: seq<TeamCount>): nat {
    if breakdown == [] then 0 else breakdown[0].total + SumTotals(breakdown[1..])
  }

  /** The people a list shows of a team are those of the team in that state. */
  lemma {:induction false} ListedInState(t: Tables, people: seq<Person>, offset: int, now: Instant, team: Team,
        state: DayStatus)
    requires Consistent(t)
    ensures InTeam(LinesWith(t, people, offset, now, state), team) == InState(t, people, offset, now, team, state)
  {
    hide LineOf, Today, Consistent;
    if people != [] {
      var n := |people| - 1;
      ListedInState(t, people[..n], offset, now, team, state);
      SnapshotStateIsTodays(t, people[n], offset, now);
      LineNamesItsPerson(t, people[n], offset, now);
      InTeamAppend(LinesWith(t, people[..n], offset, now, state), LineOf(t, people[n], offset, now), team);
    }
  }

  lemma CountTeamMeans(t: Tables, people: seq<Person>, offset: int, now: Instant, team: Team)
    requires Consistent(t)
    ensures var c := CountTeam(people, LinesWith(t, people, offset, now, Present),
                               LinesWith(t, people, offset, now, Absent),
                               LinesWith(t, people, offset, now, CheckedOut), team);
      c.team == team && Counts(t, people, offset, now, c)
  {
    hide LinesWith, InTeam, InState, Consistent;
    ListedInState(t, people, offset, now, team, Present);
    ListedInState(t, people, offset, now, team, Absent);
    ListedInState(t, people, offset, now, team, CheckedOut);
  }

  lemma {:induction false} LinesInTeams(lines: seq<Line>)
    ensures InTeam(lines, Executive) + InTeam(lines, Core) + InTeam(lines, Member) == |lines|
  {
    if lines != [] { LinesInTeams(lines[..|lines| - 1]); }
  }

  /** The teams' columns add up to the lists, and their totals to everybody. */
  lemma ColumnsAddUp(people: seq<Person>, r: Snapshot)
    requires |r.breakdown| == 3
    requires r.breakdown[0] == CountTeam(people, r.present, r.absent, r.checkedOut, Executive)
    requires r.breakdown[1] == CountTeam(people, r.present, r.absent, r.checkedOut, Core)
    requires r.breakdown[2] == CountTeam(people, r.present, r.absent, r.checkedOut, Member)
    ensures SumTotals(r.breakdown) == |people|
    ensures Column(r.breakdown, Present) == |r.present|
    ensures Column(r.breakdown, Absent) == |r.absent|
    ensures Column(r.breakdown, CheckedOut) == |r.checkedOut|
  {
    var b := r.breakdown;
    assert b[1..][1..] == b[2..] && b[2..][1..] == [];
    assert b[1..][0] == b[1] && b[2..][0] == b[2];
    LinesInTeams(r.present);
    LinesInTeams(r.absent);
    LinesInTeams(r.checkedOut);
    TeamsAddUp(people);
    hide InTeam, MembersOf;
    assert Column(b[2..], Present) == b[2].present && Column(b[1..], Present) == b[1].present + b[2].present;
    assert Column(b[2..], Absent) == b[2].absent && Column(b[1..], Absent) == b[1].absent + b[2].absent;
    assert Column(b[2..], CheckedOut) == b[2].checkedOut;
    assert Column(b[1..], CheckedOut) == b[1].checkedOut + b[2].checkedOut;
    assert SumTotals(b[2..]) == b[2].total && SumTotals(b[1..]) == b[1].total + b[2].total;
  }

  /** Builds the three lists in one pass over the users, and then the per-team counts. */
  method TakeSnapshot(t: Tables, people: seq<Person>, offset: int, now: Instant) returns (r: Snapshot)
    ensures r.present == LinesWith(t, people, offset, now, Present)
    ensures r.absent == LinesWith(t, people, offset, now, Absent)
    ensures r.checkedOut == LinesWith(t, people, offset, now, CheckedOut)
    ensures |r.breakdown| == 3
    ensures r.breakdown[0] == CountTeam(people, r.present, r.absent, r.checkedOut, Executive)
    ensures r.breakdown[1] == CountTeam(people, r.present, r.absent, r.checkedOut, Core)
    ensures r.breakdown[2] == CountTeam(people, r.present, r.absent, r.checkedOut, Member)
    ensures forall j :: 0 <= j < 3 ==> r.breakdown[j].team == TEAMS[j]
    ensures Consistent(t) ==> forall j :: 0 <= j < 3 ==> Counts(t, people, offset, now, r.breakdown[j])
    ensures SumTotals(r.breakdown) == |people|
    ensures Column(r.breakdown, Present) == |r.present|
    ensures Column(r.breakdown, Absent) == |r.absent|
    ensures Column(r.breakdown, CheckedOut) == |r.checkedOut|
  {
    hide DaySessions, LocalDate, Elapsed, OpenSession;
    var today := LocalDate(now, offset);
    var present, absent, checkedOut := [], [], [];
    for i := 0 to |people|
      invariant present == LinesWith(t, people[..i], offset, now, Present)
      invariant absent == LinesWith(t, people[..i], offset, now, Absent)
      invariant checkedOut == LinesWith(t, people[..i], offset, now, CheckedOut)
    {
      assert people[..i + 1][..i] == people[..i];
      var p := people[i];
      var k := DayKey(p.id, today);
      var session := OpenSession(t.sessions, p.id);
      var late := false;
      var sessions: seq<Session> := [];
      if k in t.days {
        late := t.days[k].late;
        sessions := DaySessions(t.sessions, k);
      }
      if session.Some? {
        var running := Elapsed(t.sessions[session.value], now);
        var closed := 0;
        if k in t.days { closed := t.days[k].total; }
        present := present + [Line(p, Present, late, |sessions|, running, closed + running)];
      } else if k in t.days && sessions != [] {
        checkedOut := checkedOut + [Line(p, CheckedOut, late, |sessions|, 0, t.days[k].total)];
      } else {
        absent := absent + [Line(p, Absent, late, |sessions|, 0, 0)];
      }
    }
    assert people[..|people|] == people;
    var teams := [Executive, Core, Member];
    var breakdown := [];
    for j := 0 to 3
      invariant |breakdown| == j
      invariant forall a :: 0 <= a < j ==> breakdown[a] == CountTeam(people, present, absent, checkedOut, teams[a])
    {
      breakdown := breakdown + [CountTeam(people, present, absent, checkedOut, teams[j])];
    }
    r := Snapshot(present, absent, checkedOut, breakdown);
    forall j | 0 <= j < 3 && Consistent(t)
      ensures Counts(t, people, offset, now, r.breakdown[j])
    {
      CountTeamMeans(t, people, offset, now, teams[j]);
    }
    ColumnsAddUp(people, r);
  }

  // ---------------------------------------------------------------- partition

  function Listed(lines: seq<Line>, p: Person): nat {
    if lines == [] then 0 else Listed(lines[..|lines| - 1], p) + (if lines[|lines| - 1].person == p then 1 else 0)
  }

  function Occurs(people: seq<Person>, p: Person): nat {
    if people == [] then 0 else Occurs(people[..|people| - 1], p) + (if people[|people| - 1] == p then 1 else 0)
  }

  lemma ListedAppend(lines: seq<Line>, line: Line, p: Person)
    ensures Listed(lines + [line], p) == Listed(lines, p) + (if line.person == p then 1 else 0)
  {
    assert (lines + [line])[..|lines|] == lines;
  }

  lemma InTeamAppend(lines: seq<Line>, line: Line, team: Team)
    ensures InTeam(lines + [line], team) == InTeam(lines, team) + (if line.person.team == team then 1 else 0)
  {
    assert (lines + [line])[..|lines|] == lines;
  }

  /** Every user appears in the three lists together exactly as often as among the users: once, in one list. */
  lemma {:induction false} SnapshotPartitions(t: Tables, people: seq<Person>, offset: int, now: Instant, p: Person)
    ensures Occurs(people, p) ==
      Listed(LinesWith(t, people, offset, now, Present), p) + Listed(LinesWith(t, people, offset, now, Absent), p)
      + Listed(LinesWith(t, people, offset, now, CheckedOut), p)
  {
    hide LineOf;
    if people != [] {
      var n := |people| - 1;
      SnapshotPartitions(t, people[..n], offset, now, p);
      var line := LineOf(t, people[n], offset, now);
      LineNamesItsPerson(t, people[n], offset, now);
      forall state { ListedAppend(LinesWith(t, people[..n], offset, now, state), line, p); }
    }
  }

  lemma LineNamesItsPerson(t: Tables, p: Person, offset: int, now: Instant)
    ensures LineOf(t, p, offset, now).person == p
  {
  }

  /** Per team, the three lists add up to the team. */
  lemma {:induction false} TeamCountsAddUp(t: Tables, people: seq<Person>, offset: int, now: Instant, team: Team)
    ensures MembersOf(people, team) ==
      InTeam(LinesWith(t, people, offset, now, Present), team) + InTeam(LinesWith(t, people, offset, now, Absent), team)
      + InTeam(LinesWith(t, people, offset, now, CheckedOut), team)
  {
    hide LineOf;
    if people != [] {
      var n := |people| - 1;
      TeamCountsAddUp(t, people[..n], offset, now, team);
      var line := LineOf(t, people[n], offset, now);
      LineNamesItsPerson(t, people[n], offset, now);
      forall state { InTeamAppend(LinesWith(t, people[..n], offset, now, state), line, team); }
    }
  }

  /** ... and the teams add up to everybody. */
  lemma {:induction false} TeamsAddUp(people: seq<Person>)
    ensures MembersOf(people, Executive) + MembersOf(people, Core) + MembersOf(people, Member) == |people|
  {
    if people != [] { TeamsAddUp(people[..|people| - 1]); }
  }

  // ------------------------------------------------- agreement with today's view

  lemma DayRowMeansSessions(t: Tables, k: DayKey)
    requires Consistent(t) && k in t.days
    ensures DaySessions(t.sessions, k) != []
    ensures OpenSession(t.sessions, k.user).None? ==> t.days[k].status == CheckedOut
  {
    assert RowFollows(t.sessions, k, t.days[k]);
    DaySessionsCount(t.sessions, k);
    AggregatedShape(t.sessions, k);
  }

  /** The dashboard and the user's own screen show the same state at the same instant. */
  lemma SnapshotStateIsTodays(t: Tables, p: Person, offset: int, now: Instant)
    requires Consistent(t)
    ensures LineOf(t, p, offset, now).state == Today(t, p.id, offset, now).state
    ensures LineOf(t, p, offset, now).elapsed == Today(t, p.id, offset, now).activeElapsed
  {
    var k := DayKey(p.id, LocalDate(now, offset));
    if k in t.days { DayRowMeansSessions(t, k); }
  }

  /** An open session that began on an earlier local date and has run for at least a second. */
  predicate RunningOvernight(t: Tables, user: UserId, offset: int, now: Instant) {
    var open := OpenSession(t.sessions, user);
    && open.Some?
    && LocalDate(t.sessions[open.value].punchIn, offset) != LocalDate(now, offset)
    && Elapsed(t.sessions[open.value], now) > 0
  }

  /** ... and the same total, exactly unless an overnight session is running: only the dashboard counts that one. */
  lemma SnapshotTotalIsTodays(t: Tables, p: Person, offset: int, now: Instant)
    requires Consistent(t)
    ensures LineOf(t, p, offset, now).total == Today(t, p.id, offset, now).total <==>
      !RunningOvernight(t, p.id, offset, now)
    ensures RunningOvernight(t, p.id, offset, now) ==>
      LineOf(t, p, offset, now).total == Today(t, p.id, offset, now).total + Today(t, p.id, offset, now).activeElapsed
  {
    var k := DayKey(p.id, LocalDate(now, offset));
    if k in t.days { DayRowMeansSessions(t, k); }
  }

  /** A line's other figures: the day's lateness and how many sessions the day has. */
  lemma LineShowsDay(t: Tables, p: Person, offset: int, now: Instant)
    requires Consistent(t)
    ensures var line := LineOf(t, p, offset, now);
      var k := DayKey(p.id, LocalDate(now, offset));
      && line.person == p
      && (line.late <==> k in t.days && t.days[k].late)
      && line.sessions == |set i: nat | i < |t.sessions| && t.sessions[i].Day() == k|
  {
    var k := DayKey(p.id, LocalDate(now, offset));
    DaySessionsCounted(t.sessions, k);
    if k !in t.days {
      assert (set i: nat | i < |t.sessions| && t.sessions[i].Day() == k) == {};
    }
  }
}
