/** What an idempotency key promises on the server: the first recorded event settles it for ever. */
module Idempotency {
  import opened Base
  import opened Clock
  import opened Geofence
  import opened Attendance
  import opened AttendanceInvariants

  predicate Under(e: Entry, user: UserId, key: Key) {
    e.Attempt? && e.event.user == user && e.event.key == Some(key)
  }

  /** How many events were recorded under a key. */
  function EventsUnder(journal: seq<Entry>, user: UserId, key: Key): nat {
    if journal == [] then 0 else
    EventsUnder(journal[..|journal| - 1], user, key) + (if Under(journal[|journal| - 1], user, key) then 1 else 0)
  }

  /** How many accepted events were recorded under a key. */
  function AcceptedUnder(journal: seq<Entry>, user: UserId, key: Key): nat {
    if journal == [] then 0 else
    var last := journal[|journal| - 1];
    AcceptedUnder(journal[..|journal| - 1], user, key) +
      (if Under(last, user, key) && last.event.Accepted() then 1 else 0)
  }

  lemma Appended(journal: seq<Entry>, e: Entry, user: UserId, key: Key)
    ensures EventsUnder(journal + [e], user, key) ==
      EventsUnder(journal, user, key) + (if Under(e, user, key) then 1 else 0)
    ensures Settled(journal + [e], user, key) ==
            if Settled(journal, user, key).Some? then Settled(journal, user, key)
            else if Under(e, user, key) then Some(e.event) else None
  {
    assert (journal + [e])[..|journal|] == journal;
  }

  /**
   A key is settled exactly when it has an event, and while it has just one, that event decides whether it was accepted.
   */
  lemma {:induction false} SettledCounts(journal: seq<Entry>, user: UserId, key: Key)
    ensures Settled(journal, user, key).None? <==> EventsUnder(journal, user, key) == 0
    ensures AcceptedUnder(journal, user, key) <= EventsUnder(journal, user, key)
    ensures EventsUnder(journal, user, key) == 1 ==>
      AcceptedUnder(journal, user, key) == if Settled(journal, user, key).value.Accepted() then 1 else 0
  {
    if journal != [] { SettledCounts(journal[..|journal| - 1], user, key); }
  }

  /** Two readings of the same event row, before and after its coordinates may have been erased. */
  predicate SameEvent(a: Event, b: Event) { b == a || b == Forgotten(a) }

  ghost predicate KeysUnique(journal: seq<Entry>) {
    forall user, key :: EventsUnder(journal, user, key) <= 1
  }

  /** Accepted events point at sessions of their own user. */
  ghost predicate EventsOwn(t: Tables) {
    forall e :: e in t.journal && e.Attempt? && e.event.Accepted() ==>
      e.event.session.Some? && e.event.session.value < |t.sessions| &&
        t.sessions[e.event.session.value].user == e.event.user
  }

  /** `u` records everything `t` does, under the same keys, with the same sessions. */
  ghost predicate Extends(t: Tables, u: Tables) {
    && |t.sessions| <= |u.sessions|
    && (forall i :: 0 <= i < |t.sessions| ==> u.sessions[i].user == t.sessions[i].user)
    && (forall user, key :: Settled(t.journal, user, key).Some? ==>
          Settled(u.journal, user, key).Some? &&
            SameEvent(Settled(t.journal, user, key).value, Settled(u.journal, user, key).value))
  }

  lemma ExtendsTransitive(t: Tables, u: Tables, v: Tables)
    requires Extends(t, u) && Extends(u, v)
    ensures Extends(t, v)
  {
    forall user, key | Settled(t.journal, user, key).Some?
      ensures Settled(v.journal, user, key).Some? &&
        SameEvent(Settled(t.journal, user, key).value, Settled(v.journal, user, key).value)
    {
      assert Settled(u.journal, user, key).Some?;
    }
  }

  ghost predicate Sound(t: Tables) { KeysUnique(t.journal) && EventsOwn(t) }

  // --------------------------------------------------------------- one punch

  /** A punch appends at most one event, and only under a key that was not settled. */
  lemma PunchRecordsAtMostOne(t: Tables, metric: Metric, env: Env, p: Punch)
    ensures var t' := Punched(t, metric, env, p).0;
      || t' == t
      || exists session: Option<nat>, reason: Option<Code> ::
           && t'.journal == t.journal + [RecordOf(p, env.now, session, reason)]
           && (p.key.Some? ==> Settled(t.journal, p.user, p.key.value).None?)
           && (reason.None? ==>
                session.Some? && session.value < |t'.sessions| && t'.sessions[session.value].user == p.user)
  {
    hide Aggregated, Validate, LastSighting, Settled, Outcome, Replayed;
    var t' := Punched(t, metric, env, p).0;
    if env.workspace.Some? {
      var code := VerdictOn(t, metric, env, p).code;
      if t'.journal == t.journal + [RecordOf(p, env.now, None, code)] {
      } else if p.kind.In? {
        assert t' == t || t'.journal == t.journal + [RecordOf(p, env.now, Some(|t.sessions|), None)];
      } else {
        assert t' == t || t'.journal == t.journal + [RecordOf(p, env.now, OpenSession(t.sessions, p.user), None)];
      }
    }
  }

  lemma PunchKeepsUsers(t: Tables, metric: Metric, env: Env, p: Punch)
    ensures var t' := Punched(t, metric, env, p).0;
      |t.sessions| <= |t'.sessions| && forall i :: 0 <= i < |t.sessions| ==> t'.sessions[i].user == t.sessions[i].user
  {
    hide Aggregated, Validate, LastSighting, Settled, Outcome, Replayed;
  }

  lemma PunchSound(t: Tables, metric: Metric, env: Env, p: Punch)
    requires Sound(t)
    ensures Sound(Punched(t, metric, env, p).0) && Extends(t, Punched(t, metric, env, p).0)
  {
    var t' := Punched(t, metric, env, p).0;
    PunchRecordsAtMostOne(t, metric, env, p);
    PunchKeepsUsers(t, metric, env, p);
    hide Punched;
    if t' != t {
      var session: Option<nat>, reason: Option<Code> :|
        && t'.journal == t.journal + [RecordOf(p, env.now, session, reason)]
        && (p.key.Some? ==> Settled(t.journal, p.user, p.key.value).None?)
        && (reason.None? ==>
             session.Some? && session.value < |t'.sessions| && t'.sessions[session.value].user == p.user);
      var e := RecordOf(p, env.now, session, reason);
      forall user, key
        ensures EventsUnder(t'.journal, user, key) <= 1
        ensures Settled(t.journal, user, key).Some? ==> Settled(t'.journal, user, key) == Settled(t.journal, user, key)
      {
        Appended(t.journal, e, user, key);
        SettledCounts(t.journal, user, key);
      }
    }
  }

  /** A request whose key is settled changes no table, whatever it asks for. */
  lemma ReplayChangesNothing(t: Tables, metric: Metric, env: Env, p: Punch)
    requires p.key.Some? && Settled(t.journal, p.user, p.key.value).Some?
    ensures Punched(t, metric, env, p).0 == t
  {
  }

  /** A success answer names the session of the event that now settles the key. */
  lemma DoneIsSettled(t: Tables, metric: Metric, env: Env, p: Punch)
    requires p.key.Some? && Punched(t, metric, env, p).1.Done?
    ensures var (t', r) := Punched(t, metric, env, p);
      var settled := Settled(t'.journal, p.user, p.key.value);
      settled.Some? && settled.value.Accepted() && settled.value.session == Some(r.session)
  {
    hide Aggregated, Validate, LastSighting, Today, Settled;
    var key := p.key.value;
    if Settled(t.journal, p.user, key).None? {
      Appended(t.journal, RecordOf(p, env.now, Some(|t.sessions|), None), p.user, key);
      Appended(t.journal, RecordOf(p, env.now, OpenSession(t.sessions, p.user), None), p.user, key);
    }
  }

  /** A refused reading is recorded: the key is settled by a rejected event with the same code. */
  lemma RefusedReadingIsSettled(t: Tables, metric: Metric, env: Env, p: Punch)
    requires p.key.Some?
    requires Punched(t, metric, env, p).1.Refused? && IsReadingCode(Punched(t, metric, env, p).1.code)
    ensures var (t', r) := Punched(t, metric, env, p);
      var settled := Settled(t'.journal, p.user, p.key.value);
      settled.Some? && settled.value.reason == Some(r.code)
  {
    hide Aggregated, LastSighting, Today, Validate, Settled, OpenSession, AfterPunchIn, AfterPunchOut;
    var key := p.key.value;
    if Settled(t.journal, p.user, key).None? && env.workspace.Some? {
      Appended(t.journal, RecordOf(p, env.now, None, VerdictOn(t, metric, env, p).code), p.user, key);
    }
  }

  // --------------------------------------------------------- every other step

  lemma {:induction false} SettledAfterPurge(journal: seq<Entry>, cutoff: Instant, user: UserId, key: Key)
    ensures EventsUnder(PurgedJournal(journal, cutoff), user, key) == EventsUnder(journal, user, key)
    ensures Settled(journal, user, key).Some? ==>
      Settled(PurgedJournal(journal, cutoff), user, key).Some?
      && SameEvent(Settled(journal, user, key).value, Settled(PurgedJournal(journal, cutoff), user, key).value)
    ensures Settled(journal, user, key).None? ==> Settled(PurgedJournal(journal, cutoff), user, key).None?
  {
    if journal != [] {
      var n := |journal| - 1;
      SettledAfterPurge(journal[..n], cutoff, user, key);
      assert PurgedJournal(journal, cutoff)[..n] == PurgedJournal(journal[..n], cutoff);
    }
  }

  lemma {:induction false} PurgeSound(t: Tables, days: nat, now: Instant)
    requires Sound(t)
    ensures Sound(PurgeLocations(t, days, now)) && Extends(t, PurgeLocations(t, days, now))
  {
    var t' := PurgeLocations(t, days, now);
    forall user, key
      ensures EventsUnder(t'.journal, user, key) <= 1
      ensures Settled(t.journal, user, key).Some? ==>
        Settled(t'.journal, user, key).Some? &&
          SameEvent(Settled(t.journal, user, key).value, Settled(t'.journal, user, key).value)
    {
      SettledAfterPurge(t.journal, now - Days(days), user, key);
      assert EventsUnder(t.journal, user, key) <= 1;
    }
    forall e | e in t'.journal && e.Attempt? && e.event.Accepted()
      ensures e.event.session.Some? && e.event.session.value < |t.sessions| &&
        t.sessions[e.event.session.value].user == e.event.user
    {
      var i :| 0 <= i < |t'.journal| && t'.journal[i] == e;
      assert t.journal[i] in t.journal;
    }
  }

  lemma AutoClosedOneSound(t: Tables, i: nat, hours: int)
    requires Sound(t) && i < |t.sessions|
    ensures Sound(AutoClosedOne(t, i, hours)) && Extends(t, AutoClosedOne(t, i, hours))
  {
    hide Aggregated;
    forall user, key { Appended(t.journal, AutoClose(i, hours), user, key); }
  }

  lemma {:induction false} AutoClosedAllSound(t: Tables, ids: seq<nat>, hours: int)
    requires Sound(t) && forall a :: 0 <= a < |ids| ==> ids[a] < |t.sessions|
    ensures Sound(AutoClosedAll(t, ids, hours)) && Extends(t, AutoClosedAll(t, ids, hours))
    decreases |ids|
  {
    hide KeysUnique, EventsOwn, Settled, Aggregated, SameEvent;
    if ids != [] {
      var t1 := AutoClosedOne(t, ids[0], hours);
      AutoClosedOneSound(t, ids[0], hours);
      AutoClosedAllSound(t1, ids[1..], hours);
      ExtendsTransitive(t, t1, AutoClosedAll(t1, ids[1..], hours));
    } else {
      ExtendsItself(t);
    }
  }

  lemma ExtendsItself(t: Tables)
    ensures Extends(t, t)
  {
  }

  lemma StepSound(t: Tables, metric: Metric, step: Step)
    requires Sound(t)
    ensures Sound(Next(t, metric, step)) && Extends(t, Next(t, metric, step))
  {
    hide Sound, Extends, Punched, AutoClosedAll, StaleSessions;
    match step
    case Punching(env, p) => PunchSound(t, metric, env, p);
    case AutoClosing(workspace, now) =>
      if workspace.Some? {
        AutoClosedAllSound(t, StaleSessions(t.sessions, now - Hours(workspace.value.autoCloseHours)),
          workspace.value.autoCloseHours);
      } else {
        ExtendsItself(t);
      }
    case Purging(days, now) => PurgeSound(t, days, now);
  }

  /** From any reachable state on, a settled key keeps its event through every further run. */
  lemma {:induction false} SettledForEver(t: Tables, metric: Metric, steps: seq<Step>)
    requires Sound(t)
    ensures Sound(Run(t, metric, steps)) && Extends(t, Run(t, metric, steps))
  {
    hide Sound, Extends, Next;
    if steps == [] {
      ExtendsItself(t);
    } else {
      var n := |steps| - 1;
      var before := Run(t, metric, steps[..n]);
      SettledForEver(t, metric, steps[..n]);
      StepSound(before, metric, steps[n]);
      ExtendsTransitive(t, before, Next(before, metric, steps[n]));
    }
  }

  lemma EmptySound()
    ensures Sound(EmptyTables)
  {
  }
}
