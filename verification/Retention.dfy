/**
 Erasing old coordinates against the movement check that reads them.

 Two runs over the same requests, one with location purges interleaved and one without, answer every
 request alike, provided the retention is long enough for the slowest speed limit in force; and a
 shorter retention can be told apart.
 */
module Retention {
  import opened Base
  import opened Clock
  import opened Geofence
  import opened Attendance

  /** An entry as recorded, or the same entry with its coordinates erased if it is older than `horizon`. */
  predicate SameButForgotten(a: Entry, b: Entry, horizon: Instant) {
    b == a || (a.Attempt? && a.event.at < horizon && b == Attempt(Forgotten(a.event)))
  }

  ghost predicate TwinJournals(j: seq<Entry>, k: seq<Entry>, horizon: Instant) {
    |j| == |k| && forall i :: 0 <= i < |j| ==> SameButForgotten(j[i], k[i], horizon)
  }

  ghost predicate Twins(t: Tables, u: Tables, horizon: Instant) {
    t.sessions == u.sessions && t.days == u.days && TwinJournals(t.journal, u.journal, horizon)
  }

  predicate OldOrAbsent(s: Option<Sighting>, horizon: Instant) { s.None? || s.value.at < horizon }

  lemma {:induction false} TwinSightings(j: seq<Entry>, k: seq<Entry>, user: UserId, horizon: Instant)
    requires TwinJournals(j, k, horizon)
    ensures var a, b := LastSighting(j, user), LastSighting(k, user);
      a == b || (OldOrAbsent(a, horizon) && OldOrAbsent(b, horizon))
  {
    if j != [] {
      var n := |j| - 1;
      TwinSightings(j[..n], k[..n], user, horizon);
      assert SameButForgotten(j[n], k[n], horizon);
    }
  }

  lemma {:induction false} TwinSettled(j: seq<Entry>, k: seq<Entry>, user: UserId, key: Key, horizon: Instant)
    requires TwinJournals(j, k, horizon)
    ensures var a, b := Settled(j, user, key), Settled(k, user, key);
      && a.Some? == b.Some?
      && (a.Some? ==> a.value.reason == b.value.reason && a.value.session == b.value.session)
  {
    if j != [] {
      var n := |j| - 1;
      TwinSettled(j[..n], k[..n], user, key, horizon);
      assert SameButForgotten(j[n], k[n], horizon);
    }
  }

  /** A punch can tell nothing about places left before `horizon`: the speed limit allows reaching it from anywhere. */
  predicate OutOfReach(step: Step, horizon: Instant) {
    step.Punching? && step.env.workspace.Some? ==>
      Days(834) <= step.env.workspace.value.maxSpeed * (step.env.now - horizon)
  }

  lemma TwinVerdicts(t: Tables, u: Tables, metric: Metric, env: Env, p: Punch, horizon: Instant)
    requires env.workspace.Some? && OutOfReach(Punching(env, p), horizon)
    requires Twins(t, u, horizon)
    ensures VerdictOn(t, metric, env, p) == VerdictOn(u, metric, env, p)
  {
    var ws := env.workspace.value;
    var a, b := LastSighting(t.journal, p.user), LastSighting(u.journal, p.user);
    TwinSightings(t.journal, u.journal, p.user, horizon);
    if a != b {
      OldSightingRaisesNoFlag(metric, ws, p.place, env.now, a, horizon);
      OldSightingRaisesNoFlag(metric, ws, p.place, env.now, b, horizon);
    }
  }

  lemma TwinScreened(t: Tables, u: Tables, env: Env, p: Punch, horizon: Instant)
    requires Twins(t, u, horizon)
    ensures Screened(t, env, p) == Screened(u, env, p)
  {
    if p.key.Some? { TwinSettled(t.journal, u.journal, p.user, p.key.value, horizon); }
  }

  lemma TwinAppend(j: seq<Entry>, k: seq<Entry>, e: Entry, horizon: Instant)
    requires TwinJournals(j, k, horizon)
    ensures TwinJournals(j + [e], k + [e], horizon)
  {
  }

  lemma {:induction false} TwinPunches(t: Tables, u: Tables, metric: Metric, env: Env, p: Punch, horizon: Instant)
    requires OutOfReach(Punching(env, p), horizon) && Twins(t, u, horizon)
    ensures Punched(t, metric, env, p).1 == Punched(u, metric, env, p).1
    ensures Twins(Punched(t, metric, env, p).0, Punched(u, metric, env, p).0, horizon)
  {
    hide Aggregated, TwinJournals, Validate, Settled, LastSighting, OpenSession;
    TwinScreened(t, u, env, p, horizon);
    if env.workspace.Some? {
      TwinVerdicts(t, u, metric, env, p, horizon);
      forall e { TwinAppend(t.journal, u.journal, e, horizon); }
    }
  }

  lemma {:induction false} TwinAutoClosedAll(t: Tables, u: Tables, ids: seq<nat>, hours: int, horizon: Instant)
    requires Twins(t, u, horizon) && forall a :: 0 <= a < |ids| ==> ids[a] < |t.sessions|
    ensures Twins(AutoClosedAll(t, ids, hours), AutoClosedAll(u, ids, hours), horizon)
    decreases |ids|
  {
    hide Aggregated;
    if ids != [] {
      TwinAppend(t.journal, u.journal, AutoClose(ids[0], hours), horizon);
      TwinAutoClosedAll(AutoClosedOne(t, ids[0], hours), AutoClosedOne(u, ids[0], hours), ids[1..], hours, horizon);
    }
  }

  lemma TwinsLater(t: Tables, u: Tables, horizon: Instant, later: Instant)
    requires Twins(t, u, horizon) && horizon <= later
    ensures Twins(t, u, later)
  {
    forall i | 0 <= i < |t.journal|
      ensures SameButForgotten(t.journal[i], u.journal[i], later)
    {
      assert SameButForgotten(t.journal[i], u.journal[i], horizon);
    }
  }

  lemma TwinPurge(t: Tables, u: Tables, days: nat, now: Instant, horizon: Instant)
    requires Twins(t, u, horizon) && now - Days(days) <= horizon
    ensures Twins(t, PurgeLocations(u, days, now), horizon)
  {
    var u' := PurgeLocations(u, days, now);
    forall i | 0 <= i < |t.journal|
      ensures SameButForgotten(t.journal[i], u'.journal[i], horizon)
    {
      assert SameButForgotten(t.journal[i], u.journal[i], horizon);
    }
  }

  /** The same steps without the location purges. */
  function WithoutPurges(steps: seq<Step>): seq<Step> {
    if steps == [] then [] else
    var rest := WithoutPurges(steps[..|steps| - 1]);
    if steps[|steps| - 1].Purging? then rest else rest + [steps[|steps| - 1]]
  }

  lemma TwinPass(t: Tables, u: Tables, workspace: Option<Workspace>, now: Instant, horizon: Instant)
    requires Twins(t, u, horizon)
    ensures Twins(AutoClosePass(t, workspace, now), AutoClosePass(u, workspace, now), horizon)
  {
    hide AutoClosedAll, StaleSessions;
    if workspace.Some? {
      var hours := workspace.value.autoCloseHours;
      TwinAutoClosedAll(t, u, StaleSessions(t.sessions, now - Hours(hours)), hours, horizon);
    }
  }

  /** The latest instant before which any purge so far erased coordinates. */
  function LatestCutoff(steps: seq<Step>): Option<Instant> {
    if steps == [] then None else
    var earlier, last := LatestCutoff(steps[..|steps| - 1]), steps[|steps| - 1];
    if !last.Purging? then earlier
    else Later(earlier, Some(last.when - Days(last.retentionDays)))
  }

  /** Every punch comes long enough after whatever was erased before it. */
  ghost predicate Forgettable(steps: seq<Step>) {
    forall j :: 0 <= j < |steps| ==>
      var cutoff := LatestCutoff(steps[..j]);
      cutoff.Some? ==> OutOfReach(steps[j], cutoff.value)
  }

  lemma ForgettablePrefix(steps: seq<Step>, step: Step)
    requires Forgettable(steps + [step])
    ensures Forgettable(steps)
    ensures LatestCutoff(steps).Some? ==> OutOfReach(step, LatestCutoff(steps).value)
  {
    hide LatestCutoff, OutOfReach;
    var all := steps + [step];
    assert all[..|steps|] == steps && all[|steps|] == step;
    assert forall j :: 0 <= j < |steps| ==> all[..j] == steps[..j] && all[j] == steps[j];
  }

  /** Before the first purge two runs agree outright; after it they differ in erased coordinates only. */
  ghost predicate TwinTables(t: Tables, u: Tables, cutoff: Option<Instant>) {
    if cutoff.None? then t == u else Twins(t, u, cutoff.value)
  }

  lemma {:induction false} TwinRuns(metric: Metric, steps: seq<Step>)
    requires Forgettable(steps)
    ensures TwinTables(Run(EmptyTables, metric, WithoutPurges(steps)), Run(EmptyTables, metric, steps),
      LatestCutoff(steps))
  {
    hide Next, TwinTables, Forgettable, OutOfReach;
    if steps == [] {
      EmptyTwins();
    } else {
      var n := |steps| - 1;
      var step := steps[n];
      assert steps == steps[..n] + [step];
      ForgettablePrefix(steps[..n], step);
      TwinRuns(metric, steps[..n]);
      RunAppend(EmptyTables, metric, WithoutPurges(steps[..n]), step);
      var t, u := Run(EmptyTables, metric, WithoutPurges(steps[..n])), Run(EmptyTables, metric, steps[..n]);
      TwinStep(t, u, metric, step, LatestCutoff(steps[..n]));
    }
  }

  lemma EmptyTwins()
    ensures TwinTables(EmptyTables, EmptyTables, None)
  {
  }

  lemma SameTwins(t: Tables, horizon: Instant)
    ensures Twins(t, t, horizon)
  {
  }

  lemma TwinStep(t: Tables, u: Tables, metric: Metric, step: Step, cutoff: Option<Instant>)
    requires TwinTables(t, u, cutoff) && (cutoff.Some? ==> OutOfReach(step, cutoff.value))
    ensures step.Purging? ==>
      TwinTables(t, Next(u, metric, step), Later(cutoff, Some(step.when - Days(step.retentionDays))))
    ensures !step.Purging? ==> TwinTables(Next(t, metric, step), Next(u, metric, step), cutoff)
  {
    hide AutoClosePass, Punched, Twins, PurgeLocations, OutOfReach;
    match step
    case Punching(env, p) => if cutoff.Some? { TwinPunches(t, u, metric, env, p, cutoff.value); }
    case AutoClosing(workspace, now) => if cutoff.Some? { TwinPass(t, u, workspace, now, cutoff.value); }
    case Purging(days, now) =>
      var horizon := Later(cutoff, Some(now - Days(days))).value;
      if cutoff.Some? { TwinsLater(t, u, cutoff.value, horizon); } else { SameTwins(t, horizon); }
      TwinPurge(t, u, days, now, horizon);
  }

  /**
   After any run, in whatever order its clock readings come, the next punch gets the same reading verdict and
   flags, the same answer and the same effect on sessions and days whether or not the purges ran, provided that
   every punch comes long enough after whatever was erased before it.
   */
  lemma {:induction false} PurgeInvisible(metric: Metric, steps: seq<Step>, env: Env, p: Punch)
    requires Forgettable(steps + [Punching(env, p)])
    ensures var kept, purged := Run(EmptyTables, metric, WithoutPurges(steps)), Run(EmptyTables, metric, steps);
      SameForPunch(kept, purged, metric, env, p)
  {
    var kept, purged := Run(EmptyTables, metric, WithoutPurges(steps)), Run(EmptyTables, metric, steps);
    var cutoff := LatestCutoff(steps);
    hide VerdictOn, Punched, Run, Forgettable, LatestCutoff, OutOfReach;
    ForgettablePrefix(steps, Punching(env, p));
    TwinRuns(metric, steps);
    if cutoff.Some? {
      if env.workspace.Some? { TwinVerdicts(kept, purged, metric, env, p, cutoff.value); }
      TwinPunches(kept, purged, metric, env, p, cutoff.value);
    }
  }

  /** The two tables cannot be told apart by this punch, except by the coordinates that stay in the journal. */
  predicate SameForPunch(t: Tables, u: Tables, metric: Metric, env: Env, p: Punch) {
    && (env.workspace.Some? ==> VerdictOn(t, metric, env, p) == VerdictOn(u, metric, env, p))
    && Punched(t, metric, env, p).1 == Punched(u, metric, env, p).1
    && Punched(t, metric, env, p).0.sessions == Punched(u, metric, env, p).0.sessions
    && Punched(t, metric, env, p).0.days == Punched(u, metric, env, p).0.days
  }

  // ------------------------------------------------- one retention for all

  /** A purge uses this retention, and a punch reads a speed limit that the retention outlasts. */
  predicate Outlasted(step: Step, days: nat) {
    match step
    case Punching(env, _) => env.workspace.Some? ==> RetentionOutlastsTravel(days, env.workspace.value.maxSpeed)
    case AutoClosing(_, _) => true
    case Purging(retention, _) => retention == days
  }

  /** Every purge comes, in time, before the punches serialised after it; nothing else need be in order. */
  ghost predicate PurgesFirst(steps: seq<Step>) {
    forall i, j :: 0 <= i < j < |steps| && steps[i].Purging? && steps[j].Punching? ==> steps[i].when <= steps[j].env.now
  }

  lemma MonotonePurgesFirst(steps: seq<Step>)
    requires Monotone(steps)
    ensures PurgesFirst(steps)
  {
    assert forall i :: 0 <= i < |steps| && steps[i].Purging? ==> steps[i].Now() == steps[i].when;
    assert forall i :: 0 <= i < |steps| && steps[i].Punching? ==> steps[i].Now() == steps[i].env.now;
  }

  lemma {:induction false} CutoffBefore(steps: seq<Step>, days: nat, now: Instant)
    requires forall i :: 0 <= i < |steps| && steps[i].Purging? ==>
      steps[i].retentionDays == days && steps[i].when <= now
    ensures LatestCutoff(steps).Some? ==> LatestCutoff(steps).value <= now - Days(days)
  {
    if steps != [] { CutoffBefore(steps[..|steps| - 1], days, now); }
  }

  /** With one retention that outlasts every speed limit in force, the order of purges and punches is enough. */
  lemma RetentionForgettable(steps: seq<Step>, days: nat)
    requires PurgesFirst(steps) && forall i :: 0 <= i < |steps| ==> Outlasted(steps[i], days)
    ensures Forgettable(steps)
  {
    hide LatestCutoff, Outlasted;
    forall j | 0 <= j < |steps| && LatestCutoff(steps[..j]).Some?
      ensures OutOfReach(steps[j], LatestCutoff(steps[..j]).value)
    {
      if steps[j].Punching? && steps[j].env.workspace.Some? {
        OutlastedMeans(steps, days);
        CutoffBefore(steps[..j], days, steps[j].env.now);
        LongGapProduct(steps[j].env.now - LatestCutoff(steps[..j]).value, days, steps[j].env.workspace.value.maxSpeed);
      }
    }
  }

  lemma OutlastedMeans(steps: seq<Step>, days: nat)
    requires forall i :: 0 <= i < |steps| ==> Outlasted(steps[i], days)
    ensures forall i :: 0 <= i < |steps| && steps[i].Purging? ==> steps[i].retentionDays == days
    ensures forall i :: 0 <= i < |steps| && steps[i].Punching? && steps[i].env.workspace.Some? ==>
      RetentionOutlastsTravel(days, steps[i].env.workspace.value.maxSpeed)
  {
  }

  /** The same for a configured retention: purges that precede the punches serialised after them never show. */
  lemma {:induction false} RetentionInvisible(metric: Metric, steps: seq<Step>, days: nat, env: Env, p: Punch)
    requires PurgesFirst(steps + [Punching(env, p)])
    requires forall i :: 0 <= i < |steps| ==> Outlasted(steps[i], days)
    requires Outlasted(Punching(env, p), days)
    ensures var kept, purged := Run(EmptyTables, metric, WithoutPurges(steps)), Run(EmptyTables, metric, steps);
      SameForPunch(kept, purged, metric, env, p)
  {
    hide SameForPunch, Run, Forgettable, PurgesFirst, Outlasted;
    RetentionForgettable(steps + [Punching(env, p)], days);
    PurgeInvisible(metric, steps, env, p);
  }

  /** 84 days outlast every speed limit the workspace table admits, and so does the default of 180. */
  lemma EightyFourDaysAlwaysSuffice(days: nat, ws: Workspace)
    requires 84 <= days
    ensures RetentionOutlastsTravel(days, ws.maxSpeed)
  {
    assert (days - 84) * ws.maxSpeed >= 0;
  }

  /** Two well-formed places about half the circumference apart, each no distance from itself. */
  predicate FarPlaces(metric: Metric, here: Place, there: Place) {
    && WellFormed(here) && !NullIsland(here) && WellFormed(there) && !NullIsland(there)
    && metric(here, here) == 0.0 && metric(there, there) == 0.0 && NEARLY_FARTHEST <= metric(here, there)
  }

  function FarApart(a: Place, b: Place): real { if a == b then 0.0 else NEARLY_FARTHEST }

  lemma FarPlacesExist()
    ensures FarPlaces(FarApart, Place(10.0, 10.0), Place(-10.0, -170.0))
  {
  }

  /**
   A punch too soon after what was erased shows, whatever the metric, between any two places far enough apart:
   one punch here just old enough for the purge, the workspace moved there, the purge, and a punch there is flagged
   if the purge did not run and passes if it did.
   */
  lemma {:induction false} ShortGapShows(metric: Metric, here: Place, there: Place, days: nat, when: Instant,
        now: Instant, ws: Workspace)
    returns (steps: seq<Step>, env: Env, p: Punch)
    requires FarPlaces(metric, here, there) && ws.maxSpeed * (now - (when - Days(days))) <= Days(833)
    ensures |steps| == 2 && steps[0].Punching? && steps[0].env.now == when - Days(days) - 1 &&
      steps[1] == Purging(days, when)
    ensures env == Env(Some(ws.(centre := there)), Enabled, now)
    ensures var kept, purged := Run(EmptyTables, metric, WithoutPurges(steps)), Run(EmptyTables, metric, steps);
      && VerdictOn(kept, metric, env, p).flag.Some?
      && VerdictOn(purged, metric, env, p) == VerdictOn(kept, metric, env, p).(flag := None, code := None)
      && (ws.blockMovement ==> VerdictOn(kept, metric, env, p).code == Some(ImpossibleMovement))
  {
    hide Run, WithoutPurges, LastSighting, Validate;
    var at := when - Days(days) - 1;
    var first := Punch(0, In, None, here, 1.0);
    var early := Env(Some(ws.(centre := here)), Enabled, at);
    steps := [Punching(early, first), Purging(days, when)];
    env := Env(Some(ws.(centre := there)), Enabled, now);
    p := Punch(0, Out, None, there, 1.0);
    SightingLost(metric, early, first, ws.(centre := here), days, when);
    assert ws.maxSpeed * (now - at) == ws.maxSpeed * (now - (when - Days(days))) + ws.maxSpeed;
    JumpFlagged(metric, here, there, at, now, ws.(centre := there));
  }

  /** A retention too short for a workspace's speed limit shows on a run whose clock never runs backwards. */
  lemma {:induction false} ShortRetentionShows(metric: Metric, here: Place, there: Place, days: nat, ws: Workspace)
    returns (steps: seq<Step>, env: Env, p: Punch)
    requires FarPlaces(metric, here, there) && !RetentionOutlastsTravel(days, ws.maxSpeed)
    ensures Monotone(steps + [Punching(env, p)])
    ensures forall i :: 0 <= i < |steps| && steps[i].Purging? ==> steps[i].retentionDays == days
    ensures env.workspace.Some? && env.workspace.value == ws.(centre := there)
    ensures var kept, purged := Run(EmptyTables, metric, WithoutPurges(steps)), Run(EmptyTables, metric, steps);
      && VerdictOn(kept, metric, env, p).flag.Some?
      && VerdictOn(purged, metric, env, p) == VerdictOn(kept, metric, env, p).(flag := None, code := None)
      && (ws.blockMovement ==> VerdictOn(kept, metric, env, p).code == Some(ImpossibleMovement))
  {
    hide Run, WithoutPurges, VerdictOn;
    assert ws.maxSpeed * Days(days) == Days(days * ws.maxSpeed) <= Days(833);
    steps, env, p := ShortGapShows(metric, here, there, days, Days(days), Days(days), ws);
  }

  /** The run with the purge has forgotten the one sighting that the run without it still has. */
  lemma SightingLost(metric: Metric, early: Env, first: Punch, here: Workspace, days: nat, when: Instant)
    requires early.workspace == Some(here) && early.account.Enabled? && first == Punch(0, In, None, here.centre, 1.0)
    requires WellFormed(here.centre) && !NullIsland(here.centre) && metric(here.centre, here.centre) == 0.0
    requires early.now < when - Days(days)
    ensures var steps := [Punching(early, first), Purging(days, when)];
      && LastSighting(Run(EmptyTables, metric, WithoutPurges(steps)).journal, 0) ==
           Some(Sighting(here.centre, early.now))
      && LastSighting(Run(EmptyTables, metric, steps).journal, 0) == None
  {
    FirstPunchRecorded(metric, early, first, here);
    TwoStepRuns(metric, Punching(early, first), Purging(days, when));
    LoneSighting(RecordOf(first, early.now, Some(0), None), 0, when - Days(days));
    hide Run, WithoutPurges, LastSighting, Punched;
  }

  /** A punch on the far side too soon after an old sighting is flagged against it, and clean without it. */
  lemma JumpFlagged(metric: Metric, here: Place, there: Place, at: Instant, now: Instant, ws: Workspace)
    requires FarPlaces(metric, here, there) && ws.maxSpeed * (now - at) <= Days(833) + 5000 && ws.centre == there
    ensures var seen := Validate(metric, ws, there, 1.0, now, Some(Sighting(here, at)));
      && seen.flag.Some?
      && Validate(metric, ws, there, 1.0, now, None) == seen.(flag := None, code := None)
      && (ws.blockMovement ==> seen.code == Some(ImpossibleMovement))
  {
    FastOverShortGap(metric(here, there), now - at, ws.maxSpeed);
    hide SpeedOf;
  }

  lemma TwoStepRuns(metric: Metric, s0: Step, s1: Step)
    requires !s0.Purging? && s1.Purging?
    ensures WithoutPurges([s0, s1]) == [s0]
    ensures Run(EmptyTables, metric, [s0, s1]) == Next(Run(EmptyTables, metric, [s0]), metric, s1)
  {
    assert [s0, s1][..1] == [s0];
    assert [s0][..0] == [];
    assert WithoutPurges([s0]) == [s0];
  }

  /** A journal of one accepted punch yields its sighting until it is purged, and none afterwards. */
  lemma LoneSighting(e: Entry, user: UserId, cutoff: Instant)
    requires Located(e, user) && e.event.at < cutoff
    ensures LastSighting([e], user) == Some(Sighting(e.event.place.value, e.event.at))
    ensures LastSighting(PurgedJournal([e], cutoff), user) == None
  {
    assert [e][..0] == [];
    assert PurgedJournal([e], cutoff) == [Attempt(Forgotten(e.event))];
    assert [Attempt(Forgotten(e.event))][..0] == [];
  }

  lemma FirstPunchRecorded(metric: Metric, env: Env, p: Punch, ws: Workspace)
    requires env.workspace == Some(ws) && env.account.Enabled? && p == Punch(0, In, None, ws.centre, 1.0)
    requires WellFormed(ws.centre) && !NullIsland(ws.centre) && metric(ws.centre, ws.centre) == 0.0
    ensures Run(EmptyTables, metric, [Punching(env, p)]).journal == [RecordOf(p, env.now, Some(0), None)]
  {
    assert [Punching(env, p)][..0] == [];
    assert Run(EmptyTables, metric, []) == EmptyTables;
    assert Validate(metric, ws, ws.centre, 1.0, env.now, None).Accepted();
  }

  // ---------------------------------------------------------- what is erased

  /** Coordinates are missing exactly from the events marked as purged. */
  ghost predicate MarkedPurges(journal: seq<Entry>) {
    forall e :: e in journal && e.Attempt? ==> (e.event.purged <==> e.event.place.None?)
  }

  lemma PurgeMarks(journal: seq<Entry>, cutoff: Instant)
    requires MarkedPurges(journal)
    ensures MarkedPurges(PurgedJournal(journal, cutoff))
    ensures forall i :: 0 <= i < |journal| && journal[i].Attempt? ==>
      var e := PurgedJournal(journal, cutoff)[i];
      e.Attempt? && (if journal[i].event.at < cutoff then e.event == Forgotten(journal[i].event) else e == journal[i])
  {
    forall i | 0 <= i < |journal| && journal[i].Attempt?
      ensures journal[i].event.purged <==> journal[i].event.place.None?
    {
      assert journal[i] in journal;
    }
  }

  lemma {:induction false} AutoClosedAllMarks(t: Tables, ids: seq<nat>, hours: int)
    requires MarkedPurges(t.journal) && forall a :: 0 <= a < |ids| ==> ids[a] < |t.sessions|
    ensures MarkedPurges(AutoClosedAll(t, ids, hours).journal)
    decreases |ids|
  {
    hide Aggregated;
    if ids != [] { AutoClosedAllMarks(AutoClosedOne(t, ids[0], hours), ids[1..], hours); }
  }

  lemma StepMarks(t: Tables, metric: Metric, step: Step)
    requires MarkedPurges(t.journal)
    ensures MarkedPurges(Next(t, metric, step).journal)
  {
    hide Aggregated, Validate, LastSighting, Settled, Outcome, Replayed, AutoClosedAll, StaleSessions;
    match step
    case Punching(env, p) =>
    case AutoClosing(workspace, now) =>
      if workspace.Some? {
        var hours := workspace.value.autoCloseHours;
        AutoClosedAllMarks(t, StaleSessions(t.sessions, now - Hours(hours)), hours);
      }
    case Purging(days, now) => PurgeMarks(t.journal, now - Days(days));
  }

  lemma {:induction false} RunMarks(metric: Metric, steps: seq<Step>)
    ensures MarkedPurges(Run(EmptyTables, metric, steps).journal)
  {
    hide MarkedPurges, Next;
    if steps == [] {
      NothingMarked();
    } else {
      var n := |steps| - 1;
      RunMarks(metric, steps[..n]);
      StepMarks(Run(EmptyTables, metric, steps[..n]), metric, steps[n]);
    }
  }

  lemma NothingMarked()
    ensures MarkedPurges(EmptyTables.journal)
  {
  }

  /** After a purge no event older than the retention has coordinates, and every younger event is untouched. */
  lemma PurgeErasesExactlyTheOld(metric: Metric, steps: seq<Step>, days: nat, now: Instant, i: nat)
    requires i < |Run(EmptyTables, metric, steps).journal| && Run(EmptyTables, metric, steps).journal[i].Attempt?
    ensures var before, after := Run(EmptyTables, metric, steps),
      PurgeLocations(Run(EmptyTables, metric, steps), days, now);
      && |after.journal| == |before.journal| && after.journal[i].Attempt?
      && (before.journal[i].event.at < now - Days(days) ==>
           after.journal[i].event.place.None? && after.journal[i].event.purged)
      && (before.journal[i].event.at >= now - Days(days) ==> after.journal[i] == before.journal[i])
      && after.journal[i].event ==
           before.journal[i].event.(place := after.journal[i].event.place, purged := after.journal[i].event.purged)
  {
    RunMarks(metric, steps);
    PurgeMarks(Run(EmptyTables, metric, steps).journal, now - Days(days));
    hide Run;
  }
}
