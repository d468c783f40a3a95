/** Which earlier punch the movement check compares a reading with, told without naming how it is looked up. */
module Movement {
  import opened Base
  import opened Clock
  import opened Geofence
  import opened Attendance

  /** The entry records an accepted punch of the user whose coordinates are still there. */
  predicate Places(e: Entry, user: UserId) {
    e.Attempt? && e.event.user == user && e.event.reason.None? && e.event.place.Some? && !e.event.purged
  }

  function SightingOf(e: Event): Sighting
    requires e.place.Some?
  {
    Sighting(e.place.value, e.at)
  }

  /** The sighting the movement check uses is that of such a punch, and none of them is later. */
  lemma {:induction false} SightingIsLatest(journal: seq<Entry>, user: UserId)
    ensures var s := LastSighting(journal, user);
      && (s.Some? <==> exists i :: 0 <= i < |journal| && Places(journal[i], user))
      && (s.Some? ==>
           exists i :: 0 <= i < |journal| && Places(journal[i], user) && s.value == SightingOf(journal[i].event))
      && (s.Some? ==> forall j :: 0 <= j < |journal| && Places(journal[j], user) ==> journal[j].event.at <= s.value.at)
  {
    if journal != [] {
      var n := |journal| - 1;
      SightingIsLatest(journal[..n], user);
      var earlier := LastSighting(journal[..n], user);
      assert forall i :: 0 <= i < n ==> journal[..n][i] == journal[i];
      if LastSighting(journal, user) == earlier && earlier.Some? {
        var i :| 0 <= i < n && Places(journal[..n][i], user) && earlier.value == SightingOf(journal[..n][i].event);
        assert journal[i] == journal[..n][i];
      }
    }
  }

  predicate RecordsFor(e: Entry, p: Punch) { e.Attempt? && e.event.user == p.user }

  predicate RecordsPlace(e: Entry, p: Punch, now: Instant) {
    Places(e, p.user) && e.event.place == Some(p.place) && e.event.at == now
  }

  lemma LastSightingAppend(journal: seq<Entry>, e: Entry, user: UserId)
    ensures !Places(e, user) ==> LastSighting(journal + [e], user) == LastSighting(journal, user)
    ensures Places(e, user) && (forall f :: f in journal && Places(f, user) ==> f.event.at <= e.event.at) ==>
      LastSighting(journal + [e], user) == Some(Sighting(e.event.place.value, e.event.at))
    ensures Places(e, user) && (exists f :: f in journal && Places(f, user) && e.event.at < f.event.at) ==>
      LastSighting(journal + [e], user) == LastSighting(journal, user)
  {
    assert (journal + [e])[..|journal|] == journal;
    SightingIsLatest(journal, user);
  }

  /** The entry a punch adds, if it adds one, records whether it was accepted. */
  lemma PunchAdds(t: Tables, metric: Metric, env: Env, p: Punch)
    ensures var (t', r) := Punched(t, metric, env, p);
      || t'.journal == t.journal
      || (r.Refused? && exists e :: t'.journal == t.journal + [e] && RecordsFor(e, p) && !Places(e, p.user))
      || (r.Done? && exists e :: t'.journal == t.journal + [e] && RecordsPlace(e, p, env.now))
  {
    hide Aggregated, Validate, LastSighting, Settled, Today;
    var (t', r) := Punched(t, metric, env, p);
    if t'.journal != t.journal && env.workspace.Some? {
      var code := VerdictOn(t, metric, env, p).code;
      if r.Refused? {
        var e := RecordOf(p, env.now, None, code);
        assert t'.journal == t.journal + [e] && !Places(e, p.user) && RecordsFor(e, p);
      } else {
        var session := if p.kind.In? then Some(|t.sessions|) else OpenSession(t.sessions, p.user);
        var e := RecordOf(p, env.now, session, None);
        assert t'.journal == t.journal + [e] && RecordsPlace(e, p, env.now);
      }
    }
  }

  /** A refused attempt, and any punch of somebody else, leaves what the check says about every later reading. */
  lemma RefusalsLeaveVerdicts(t: Tables, metric: Metric, env: Env, p: Punch, later: Env, q: Punch)
    requires Punched(t, metric, env, p).1.Refused? || p.user != q.user
    requires later.workspace.Some?
    ensures VerdictOn(Punched(t, metric, env, p).0, metric, later, q) == VerdictOn(t, metric, later, q)
  {
    var (t', r) := Punched(t, metric, env, p);
    PunchAdds(t, metric, env, p);
    hide Punched, LastSighting, Validate;
    if t'.journal != t.journal {
      if r.Refused? {
        var e :| t'.journal == t.journal + [e] && RecordsFor(e, p) && !Places(e, p.user);
        LastSightingAppend(t.journal, e, q.user);
      } else {
        var e :| t'.journal == t.journal + [e] && RecordsPlace(e, p, env.now);
        LastSightingAppend(t.journal, e, q.user);
      }
    }
  }

  /**
   An accepted punch no earlier than the user's accepted ones so far is what the next reading is compared with;
   an earlier one is not.
   */
  lemma AcceptedPunchIsCompared(t: Tables, metric: Metric, env: Env, p: Punch, later: Env, q: Punch)
    requires Accepts(t, metric, env, p) && p.user == q.user && later.workspace.Some?
    ensures var t' := Punched(t, metric, env, p).0;
      if forall e :: e in t.journal && Places(e, p.user) ==> e.event.at <= env.now
      then VerdictOn(t', metric, later, q)
           == Validate(metric, later.workspace.value, q.place, q.accuracy, later.now, Some(Sighting(p.place, env.now)))
      else VerdictOn(t', metric, later, q) == VerdictOn(t, metric, later, q)
  {
    AcceptedAdds(t, metric, env, p);
    PunchAdds(t, metric, env, p);
    var (t', r) := Punched(t, metric, env, p);
    hide Punched, LastSighting, Validate, Accepts;
    var e :| t'.journal == t.journal + [e] && RecordsPlace(e, p, env.now);
    LastSightingAppend(t.journal, e, p.user);
  }

  lemma AcceptedAdds(t: Tables, metric: Metric, env: Env, p: Punch)
    requires Accepts(t, metric, env, p)
    ensures Punched(t, metric, env, p).1.Done? && |Punched(t, metric, env, p).0.journal| == |t.journal| + 1
  {
    hide Aggregated, Validate, LastSighting, Settled, Today, Screened;
  }

  /**
   After any run the check compares a reading with one of the user's accepted punches whose coordinates are still
   there, and none of those is later; with nothing exactly if there is none.
   */
  lemma ComparedWithLatest(t: Tables, metric: Metric, env: Env, q: Punch)
    requires env.workspace.Some?
    ensures if exists e :: e in t.journal && Places(e, q.user)
            then exists e :: && e in t.journal && Places(e, q.user)
                             && (forall f :: f in t.journal && Places(f, q.user) ==> f.event.at <= e.event.at)
                             && VerdictOn(t, metric, env, q) == ReadAgainst(metric, env, q, Some(SightingOf(e.event)))
            else VerdictOn(t, metric, env, q) == ReadAgainst(metric, env, q, None)
  {
    hide LastSighting, Validate;
    SightingIsLatest(t.journal, q.user);
    var s := LastSighting(t.journal, q.user);
    if s.Some? {
      var i :| 0 <= i < |t.journal| && Places(t.journal[i], q.user) && s.value == SightingOf(t.journal[i].event);
      assert t.journal[i] in t.journal;
      forall f | f in t.journal && Places(f, q.user)
        ensures f.event.at <= s.value.at
      {
        var j :| 0 <= j < |t.journal| && t.journal[j] == f;
      }
    } else {
      forall e | e in t.journal
        ensures !Places(e, q.user)
      {
        var j :| 0 <= j < |t.journal| && t.journal[j] == e;
      }
    }
  }

  function ReadAgainst(metric: Metric, env: Env, q: Punch, previous: Option<Sighting>): Verdict
    requires env.workspace.Some?
  {
    Validate(metric, env.workspace.value, q.place, q.accuracy, env.now, previous)
  }
}
