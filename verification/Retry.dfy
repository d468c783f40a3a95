/**
 The page and the server joined by a network that may lose, delay, reorder and duplicate requests and
 answers, while other devices and maintenance keep changing the tables.
 */
module Retry {
  import opened Base
  import opened Clock
  import opened Geofence
  import opened Attendance
  import opened Idempotency
  import opened PunchClient

  /** The attempt with this number ended this way, as seen by the page. */
  datatype Report = Report(attempt: nat, outcome: Awaited)

  /** `dropped` are the keys lost with the page that held them, `minted` all keys ever made up here. */
  datatype World = World(
    server: Tables,
    pending: Option<Key>,
    waiting: Option<nat>,
    sent: seq<Punch>,
    replies: set<(nat, Reply)>,
    minted: set<Key>,
    dropped: set<Key>,
    reports: seq<Report>)

  datatype Move =
    | Send(kind: PunchType, place: Place, accuracy: real, newKey: Key)
    | Serve(attempt: nat, env: Env)
    | TurnAway(attempt: nat, code: Code)
    | Deliver(reply: Reply)
    | Lose(trouble: Trouble)
    | Remount
    | Elsewhere(step: Step)

  function Start(t: Tables): World { World(t, None, None, [], {}, {}, {}, []) }

  /**
   One attempt is in flight at a time, a fresh key has never been used, a request may be served again and
   again, leaving or reloading the page forgets the key and whatever it waits for, and nobody else uses this
   page's keys for this user.
   */
  ghost predicate Possible(w: World, me: UserId, move: Move) {
    match move
    case Send(_, _, _, newKey) =>
      w.waiting.None? && (w.pending.None? ==> newKey !in w.minted && Settled(w.server.journal, me, newKey).None?)
    case Serve(n, _) => n < |w.sent|
    case TurnAway(n, code) => n < |w.sent| && !Concludes(Answered(Refused(code)))
    case Deliver(reply) => w.waiting.Some? && (w.waiting.value, reply) in w.replies
    case Lose(_) => w.waiting.Some?
    case Remount => true
    case Elsewhere(step) =>
      step.Punching? && step.punch.user == me && step.punch.key.Some? ==> step.punch.key.value !in w.minted
  }

  ghost function Ended(w: World, outcome: Awaited): World
    requires w.waiting.Some?
  {
    w.(waiting := None, pending := KeyAfter(w.pending, outcome),
       reports := w.reports + [Report(w.waiting.value, outcome)])
  }

  function KeysOf(pending: Option<Key>): set<Key> { if pending.Some? then {pending.value} else {} }

  ghost function After(w: World, me: UserId, metric: Metric, move: Move): World
    requires Possible(w, me, move)
  {
    match move
    case Send(kind, place, accuracy, newKey) =>
      var key := KeyFor(w.pending, newKey);
      w.(pending := Some(key), minted := w.minted + {key}, waiting := Some(|w.sent|),
         sent := w.sent + [Punch(me, kind, Some(key), place, accuracy)])
    case Serve(n, env) =>
      var (t, reply) := Punched(w.server, metric, env, w.sent[n]);
      w.(server := t, replies := w.replies + {(n, reply)})
    case TurnAway(n, code) => w.(replies := w.replies + {(n, Refused(code))})
    case Deliver(reply) => Ended(w, Answered(reply))
    case Lose(trouble) => Ended(w, Unreachable(trouble))
    case Remount => w.(pending := None, waiting := None, dropped := w.dropped + KeysOf(w.pending))
    case Elsewhere(step) => w.(server := Next(w.server, metric, step))
  }

  /** `w` is reached from `w0` by enabled moves. */
  ghost predicate Reaches(w0: World, me: UserId, metric: Metric, moves: seq<Move>, w: World)
    decreases |moves|
  {
    if moves == [] then w == w0 else
    Possible(w0, me, moves[0]) && Reaches(After(w0, me, metric, moves[0]), me, metric, moves[1..], w)
  }

  // --------------------------------------------------------------- invariant

  /** An answer that settles its request says what the tables record under its key. */
  ghost predicate ReplyTrue(t: Tables, p: Punch, r: Reply)
    requires p.key.Some?
  {
    var settled := Settled(t.journal, p.user, p.key.value);
    && (r.Done? ==> settled.Some? && settled.value.Accepted() && settled.value.session == Some(r.session))
    && (r.Refused? && IsReadingCode(r.code) ==> settled.Some? && settled.value.reason == Some(r.code))
  }

  ghost predicate SentByMe(w: World, me: UserId) {
    forall n :: 0 <= n < |w.sent| ==> w.sent[n].user == me && w.sent[n].key.Some? && w.sent[n].key.value in w.minted
  }

  ghost predicate RepliesTrue(w: World, me: UserId)
    requires SentByMe(w, me)
  {
    forall n, r :: (n, r) in w.replies ==> n < |w.sent| && ReplyTrue(w.server, w.sent[n], r)
  }

  ghost predicate ReportsBacked(w: World) {
    forall i :: 0 <= i < |w.reports| ==>
      && w.reports[i].attempt < |w.sent|
      && (w.reports[i].outcome.Answered? ==> (w.reports[i].attempt, w.reports[i].outcome.reply) in w.replies)
  }

  ghost predicate ClientState(w: World) {
    && KeysOf(w.pending) <= w.minted && w.dropped <= w.minted
    && (w.waiting.Some? ==> w.waiting.value < |w.sent| && w.sent[w.waiting.value].key == w.pending)
  }

  predicate ConcludedBy(w: World, key: Key, i: nat) {
    i < |w.reports| && w.reports[i].attempt < |w.sent| && w.sent[w.reports[i].attempt].key == Some(key) &&
      Concludes(w.reports[i].outcome)
  }

  ghost predicate Retired(w: World, key: Key) { key in w.dropped || exists i: nat :: ConcludedBy(w, key, i) }

  /** The key in use is the only one that was neither answered conclusively nor lost with its page. */
  ghost predicate KeysRetired(w: World) {
    forall key :: key in w.minted ==> (Retired(w, key) <==> w.pending != Some(key))
  }

  predicate AskedFor(w: World, key: Key, kind: PunchType, n: nat) {
    n < |w.sent| && w.sent[n].key == Some(key) && w.sent[n].kind == kind
  }

  /** The event settling one of this page's keys has the direction of one of the requests under that key. */
  ghost predicate KindsAsked(w: World, me: UserId) {
    forall key :: key in w.minted && Settled(w.server.journal, me, key).Some? ==>
      exists n: nat :: AskedFor(w, key, Settled(w.server.journal, me, key).value.kind, n)
  }

  ghost predicate Good(w: World, me: UserId) {
    && Sound(w.server)
    && SentByMe(w, me)
    && RepliesTrue(w, me)
    && ReportsBacked(w)
    && ClientState(w)
    && KeysRetired(w)
    && KindsAsked(w, me)
  }

  lemma ReplyStaysTrue(t: Tables, u: Tables, p: Punch, r: Reply)
    requires p.key.Some? && ReplyTrue(t, p, r) && Extends(t, u)
    ensures ReplyTrue(u, p, r)
  {
  }

  lemma RetiredSame(w: World, w': World, key: Key)
    requires ReportsBacked(w) && w'.reports == w.reports && w'.dropped == w.dropped && w.sent <= w'.sent
    ensures Retired(w', key) <==> Retired(w, key)
  {
    hide Concludes;
    assert forall i: nat :: ConcludedBy(w', key, i) <==> ConcludedBy(w, key, i);
  }

  lemma SendRetires(w: World, me: UserId, metric: Metric, move: Move)
    requires Good(w, me) && Possible(w, me, move) && move.Send?
    ensures KeysRetired(After(w, me, metric, move))
  {
    hide Sound, RepliesTrue, KindsAsked, Settled, Concludes;
    var w' := After(w, me, metric, move);
    forall key | key in w'.minted
      ensures Retired(w', key) <==> w'.pending != Some(key)
    {
      RetiredSame(w, w', key);
    }
  }

  lemma StillAsked(w: World, w': World, me: UserId, key: Key)
    requires KindsAsked(w, me) && key in w.minted && w.sent <= w'.sent && w'.server == w.server
    requires Settled(w.server.journal, me, key).Some?
    ensures exists n: nat :: AskedFor(w', key, Settled(w'.server.journal, me, key).value.kind, n)
  {
    hide Settled;
    var n: nat :| AskedFor(w, key, Settled(w.server.journal, me, key).value.kind, n);
    assert AskedFor(w', key, Settled(w'.server.journal, me, key).value.kind, n);
  }

  lemma SendGood(w: World, me: UserId, metric: Metric, move: Move)
    requires Good(w, me) && Possible(w, me, move) && move.Send?
    ensures Good(After(w, me, metric, move), me)
  {
    SendRetires(w, me, metric, move);
    hide Sound, ReplyTrue, KeysRetired, Settled;
    var w' := After(w, me, metric, move);
    forall key | key in w'.minted && Settled(w'.server.journal, me, key).Some?
      ensures exists n: nat :: AskedFor(w', key, Settled(w'.server.journal, me, key).value.kind, n)
    {
      StillAsked(w, w', me, key);
    }
  }

  lemma EndRetires(w: World, outcome: Awaited)
    requires ClientState(w) && ReportsBacked(w) && KeysRetired(w) && w.waiting.Some?
    ensures KeysRetired(Ended(w, outcome))
  {
    hide Concludes;
    var w' := Ended(w, outcome);
    forall key | key in w'.minted
      ensures Retired(w', key) <==> w'.pending != Some(key)
    {
      assert forall i: nat :: i < |w.reports| ==> (ConcludedBy(w', key, i) <==> ConcludedBy(w, key, i));
      assert ConcludedBy(w', key, |w.reports|) <==> w.pending == Some(key) && Concludes(outcome);
      if exists i: nat :: ConcludedBy(w, key, i) {
        var i: nat :| ConcludedBy(w, key, i);
        assert ConcludedBy(w', key, i);
      }
    }
  }

  lemma EndGood(w: World, me: UserId, outcome: Awaited)
    requires Good(w, me) && w.waiting.Some?
    requires outcome.Answered? ==> (w.waiting.value, outcome.reply) in w.replies
    ensures Good(Ended(w, outcome), me)
  {
    EndRetires(w, outcome);
    hide Sound, ReplyTrue, Concludes, KeysRetired, Settled;
    var w' := Ended(w, outcome);
    forall key | key in w'.minted && Settled(w'.server.journal, me, key).Some?
      ensures exists n: nat :: AskedFor(w', key, Settled(w'.server.journal, me, key).value.kind, n)
    {
      StillAsked(w, w', me, key);
    }
  }

  lemma RemountGood(w: World, me: UserId, metric: Metric)
    requires Good(w, me)
    ensures Good(After(w, me, metric, Remount), me)
  {
    hide Sound, ReplyTrue, Concludes, Settled;
    var w' := After(w, me, metric, Remount);
    forall key | key in w'.minted
      ensures Retired(w', key) <==> w'.pending != Some(key)
    {
      assert forall i: nat :: ConcludedBy(w', key, i) <==> ConcludedBy(w, key, i);
    }
    forall key | key in w'.minted && Settled(w'.server.journal, me, key).Some?
      ensures exists n: nat :: AskedFor(w', key, Settled(w'.server.journal, me, key).value.kind, n)
    {
      StillAsked(w, w', me, key);
    }
  }

  /** Replacing the server tables by an extension, and adding an answer that is true of them, keeps the invariant. */
  lemma ServerMoved(w: World, me: UserId, t: Tables, answers: set<(nat, Reply)>)
    requires Good(w, me) && Sound(t) && Extends(w.server, t)
    requires forall n, r :: (n, r) in answers ==> n < |w.sent| && w.sent[n].key.Some? && ReplyTrue(t, w.sent[n], r)
    requires forall key ::
      key in w.minted && Settled(t.journal, me, key).Some? && Settled(w.server.journal, me, key).None? ==>
      exists n: nat :: AskedFor(w, key, Settled(t.journal, me, key).value.kind, n)
    ensures Good(w.(server := t, replies := w.replies + answers), me)
  {
    var w' := w.(server := t, replies := w.replies + answers);
    forall n, r | (n, r) in w'.replies
      ensures n < |w'.sent| && ReplyTrue(t, w'.sent[n], r)
    {
      if (n, r) in w.replies { ReplyStaysTrue(w.server, t, w.sent[n], r); }
    }
    hide Sound, ReplyTrue, Concludes, Extends, Retired, ConcludedBy;
    forall key { RetiredSame(w, w', key); }
    forall key | key in w'.minted && Settled(t.journal, me, key).Some?
      ensures exists n: nat :: AskedFor(w', key, Settled(t.journal, me, key).value.kind, n)
    {
      ExtendedKind(w.server, t, me, key);
      var n: nat :| AskedFor(w, key, Settled(t.journal, me, key).value.kind, n);
      assert AskedFor(w', key, Settled(t.journal, me, key).value.kind, n);
    }
  }

  lemma ExtendedKind(t: Tables, u: Tables, user: UserId, key: Key)
    requires Extends(t, u)
    ensures Settled(t.journal, user, key).Some? ==>
      Settled(u.journal, user, key).Some? &&
        Settled(u.journal, user, key).value.kind == Settled(t.journal, user, key).value.kind
  {
  }

  /** A punch settles no key but its own, and that one in its own direction. */
  lemma PunchSettlesOnlyItsKey(t: Tables, metric: Metric, env: Env, p: Punch, user: UserId, key: Key)
    requires Settled(t.journal, user, key).None? && Settled(Punched(t, metric, env, p).0.journal, user, key).Some?
    ensures p.user == user && p.key == Some(key)
    ensures Settled(Punched(t, metric, env, p).0.journal, user, key).value.kind == p.kind
  {
    var t' := Punched(t, metric, env, p).0;
    PunchRecordsAtMostOne(t, metric, env, p);
    hide Punched;
    var session: Option<nat>, reason: Option<Code> :| t'.journal == t.journal + [RecordOf(p, env.now, session, reason)];
    Appended(t.journal, RecordOf(p, env.now, session, reason), user, key);
  }

  lemma {:induction false} AutoClosedAllSettlesNothing(t: Tables, ids: seq<nat>, hours: int, user: UserId, key: Key)
    requires forall a :: 0 <= a < |ids| ==> ids[a] < |t.sessions|
    ensures Settled(AutoClosedAll(t, ids, hours).journal, user, key) == Settled(t.journal, user, key)
    decreases |ids|
  {
    hide Aggregated;
    if ids != [] {
      Appended(t.journal, AutoClose(ids[0], hours), user, key);
      AutoClosedAllSettlesNothing(AutoClosedOne(t, ids[0], hours), ids[1..], hours, user, key);
    }
  }

  lemma AutoClosePassSettlesNothing(t: Tables, workspace: Option<Workspace>, now: Instant, user: UserId, key: Key)
    ensures Settled(AutoClosePass(t, workspace, now).journal, user, key) == Settled(t.journal, user, key)
  {
    hide AutoClosedAll, StaleSessions, Settled;
    if workspace.Some? {
      var hours := workspace.value.autoCloseHours;
      AutoClosedAllSettlesNothing(t, StaleSessions(t.sessions, now - Hours(hours)), hours, user, key);
    }
  }

  /** No other step settles a key of this page's. */
  lemma ElsewhereSettlesNothing(t: Tables, metric: Metric, step: Step, me: UserId, key: Key)
    requires step.Punching? && step.punch.user == me ==> step.punch.key != Some(key)
    requires Settled(t.journal, me, key).None?
    ensures Settled(Next(t, metric, step).journal, me, key).None?
  {
    hide Punched, Settled, AutoClosePass;
    match step
    case Punching(env, p) =>
      if Settled(Punched(t, metric, env, p).0.journal, me, key).Some? {
        PunchSettlesOnlyItsKey(t, metric, env, p, me, key);
      }
    case AutoClosing(workspace, now) => AutoClosePassSettlesNothing(t, workspace, now, me, key);
    case Purging(days, now) => SettledAfterPurge(t.journal, now - Days(days), me, key);
  }

  lemma {:induction false} ServeGood(w: World, me: UserId, metric: Metric, n: nat, env: Env)
    requires Good(w, me) && n < |w.sent|
    ensures Good(After(w, me, metric, Serve(n, env)), me)
  {
    var p := w.sent[n];
    var (t, reply) := Punched(w.server, metric, env, p);
    PunchSound(w.server, metric, env, p);
    if reply.Done? { DoneIsSettled(w.server, metric, env, p); }
    if reply.Refused? && IsReadingCode(reply.code) { RefusedReadingIsSettled(w.server, metric, env, p); }
    forall key | key in w.minted && Settled(t.journal, me, key).Some? && Settled(w.server.journal, me, key).None?
      ensures exists m: nat :: AskedFor(w, key, Settled(t.journal, me, key).value.kind, m)
    {
      PunchSettlesOnlyItsKey(w.server, metric, env, p, me, key);
      assert AskedFor(w, key, Settled(t.journal, me, key).value.kind, n);
    }
    hide Punched, Sound, Extends, RepliesTrue, ReportsBacked, ClientState, KeysRetired, KindsAsked;
    ServerMoved(w, me, t, {(n, reply)});
  }

  lemma ElsewhereGood(w: World, me: UserId, metric: Metric, step: Step)
    requires Good(w, me) && Possible(w, me, Elsewhere(step))
    ensures Good(After(w, me, metric, Elsewhere(step)), me)
  {
    var t := Next(w.server, metric, step);
    StepSound(w.server, metric, step);
    forall key | key in w.minted && Settled(w.server.journal, me, key).None?
      ensures Settled(t.journal, me, key).None?
    {
      ElsewhereSettlesNothing(w.server, metric, step, me, key);
    }
    hide Next, Sound, Extends, RepliesTrue, ReportsBacked, ClientState, KeysRetired, KindsAsked;
    ServerMoved(w, me, t, {});
    assert w.replies + {} == w.replies;
  }

  lemma TurnAwayGood(w: World, me: UserId, metric: Metric, n: nat, code: Code)
    requires Good(w, me) && Possible(w, me, TurnAway(n, code))
    ensures Good(After(w, me, metric, TurnAway(n, code)), me)
  {
    ExtendsItself(w.server);
    hide Sound, Extends, RepliesTrue, ReportsBacked, ClientState, KeysRetired, KindsAsked;
    ServerMoved(w, me, w.server, {(n, Refused(code))});
  }

  lemma MoveGood(w: World, me: UserId, metric: Metric, move: Move)
    requires Good(w, me) && Possible(w, me, move)
    ensures Good(After(w, me, metric, move), me)
  {
    hide Good, Ended;
    match move
    case Send(_, _, _, _) => SendGood(w, me, metric, move);
    case Serve(n, env) => ServeGood(w, me, metric, n, env);
    case TurnAway(n, code) => TurnAwayGood(w, me, metric, n, code);
    case Deliver(reply) => EndGood(w, me, Answered(reply));
    case Lose(trouble) => EndGood(w, me, Unreachable(trouble));
    case Remount => RemountGood(w, me, metric);
    case Elsewhere(step) => ElsewhereGood(w, me, metric, step);
  }

  lemma {:induction false} ReachableGood(w0: World, me: UserId, metric: Metric, moves: seq<Move>, w: World)
    requires Good(w0, me) && Reaches(w0, me, metric, moves, w)
    ensures Good(w, me)
    decreases |moves|
  {
    hide Good, After, Possible;
    if moves != [] {
      MoveGood(w0, me, metric, moves[0]);
      ReachableGood(After(w0, me, metric, moves[0]), me, metric, moves[1..], w);
    }
  }

  // ------------------------------------------------------------ what it means

  /**
   When the page reports success there is exactly one accepted event under the key it sent, and the session
   it was given is that event's and its own.
   */
  lemma SuccessMeansExactlyOnce(t: Tables, me: UserId, metric: Metric, moves: seq<Move>, w: World, i: nat)
    requires Sound(t) && Reaches(Start(t), me, metric, moves, w)
    requires i < |w.reports| && w.reports[i].outcome.Answered? && w.reports[i].outcome.reply.Done?
    ensures w.reports[i].attempt < |w.sent| && w.sent[w.reports[i].attempt].key.Some?
    ensures var key := w.sent[w.reports[i].attempt].key.value;
      var session := w.reports[i].outcome.reply.session;
      var settled := Settled(w.server.journal, me, key);
      && EventsUnder(w.server.journal, me, key) == 1
      && AcceptedUnder(w.server.journal, me, key) == 1
      && settled.Some? && settled.value.session == Some(session)
      && session < |w.server.sessions| && w.server.sessions[session].user == me
  {
    ReachableGood(Start(t), me, metric, moves, w);
    hide Reaches, Settled;
    var p := w.sent[w.reports[i].attempt];
    assert ReplyTrue(w.server, p, w.reports[i].outcome.reply);
    SettledCounts(w.server.journal, me, p.key.value);
  }

  /** Whatever the network does, one key never has two events, so it never opens or closes two sessions. */
  lemma AtMostOnePerKey(t: Tables, me: UserId, metric: Metric, moves: seq<Move>, w: World, user: UserId, key: Key)
    requires Sound(t) && Reaches(Start(t), me, metric, moves, w)
    ensures AcceptedUnder(w.server.journal, user, key) <= EventsUnder(w.server.journal, user, key) <= 1
  {
    ReachableGood(Start(t), me, metric, moves, w);
    SettledCounts(w.server.journal, user, key);
  }

  /** A reported refusal of the reading is final: nothing was or ever will be accepted under that key. */
  lemma RefusedReadingIsFinal(t: Tables, me: UserId, metric: Metric, moves: seq<Move>, w: World, i: nat)
    requires Sound(t) && Reaches(Start(t), me, metric, moves, w)
    requires i < |w.reports| && w.reports[i].outcome.Answered?
    requires w.reports[i].outcome.reply.Refused? && IsReadingCode(w.reports[i].outcome.reply.code)
    ensures w.reports[i].attempt < |w.sent| && w.sent[w.reports[i].attempt].key.Some?
    ensures AcceptedUnder(w.server.journal, me, w.sent[w.reports[i].attempt].key.value) == 0
  {
    ReachableGood(Start(t), me, metric, moves, w);
    hide Reaches, Settled;
    var p := w.sent[w.reports[i].attempt];
    assert ReplyTrue(w.server, p, w.reports[i].outcome.reply);
    SettledCounts(w.server.journal, me, p.key.value);
  }

  /** A key is replaced exactly when a request that carried it was answered conclusively, or its page was left. */
  lemma RetriesKeepTheirKey(t: Tables, me: UserId, metric: Metric, moves: seq<Move>, w: World, key: Key)
    requires Sound(t) && Reaches(Start(t), me, metric, moves, w)
    requires key in w.minted
    ensures w.pending != Some(key) <==> (key in w.dropped || exists i: nat :: ConcludedBy(w, key, i))
  {
    ReachableGood(Start(t), me, metric, moves, w);
    hide Reaches, Settled, ConcludedBy;
  }

  /** If every request under a key asked for the same direction, the recorded event has that direction. */
  lemma SameDirectionIsHonoured(t: Tables, me: UserId, metric: Metric, moves: seq<Move>, w: World, key: Key,
        kind: PunchType)
    requires Sound(t) && Reaches(Start(t), me, metric, moves, w)
    requires key in w.minted && Settled(w.server.journal, me, key).Some?
    requires forall n :: 0 <= n < |w.sent| && w.sent[n].key == Some(key) ==> w.sent[n].kind == kind
    ensures Settled(w.server.journal, me, key).value.kind == kind
  {
    ReachableGood(Start(t), me, metric, moves, w);
    hide Reaches, Settled;
    var n: nat :| AskedFor(w, key, Settled(w.server.journal, me, key).value.kind, n);
  }

  /**
   A success has the direction asked for exactly if its key was unsettled, or settled by an event of that direction.
   */
  lemma DirectionHonouredExactly(t: Tables, metric: Metric, env: Env, p: Punch)
    requires p.key.Some? && Punched(t, metric, env, p).1.Done?
    ensures var before := Settled(t.journal, p.user, p.key.value);
      var settled := Settled(Punched(t, metric, env, p).0.journal, p.user, p.key.value);
      settled.Some? && (settled.value.kind == p.kind <==> before.None? || before.value.kind == p.kind)
  {
    DoneIsSettled(t, metric, env, p);
    if Settled(t.journal, p.user, p.key.value).None? {
      PunchSettlesOnlyItsKey(t, metric, env, p, p.user, p.key.value);
    } else {
      ReplayChangesNothing(t, metric, env, p);
    }
    hide Punched, Settled;
  }

  // ------------------------------------------------------ when a key is accepted

  /** Under a key that has at most one event, being accepted is being settled by an accepted event. */
  lemma AcceptedIsSettled(t: Tables, user: UserId, key: Key)
    requires Sound(t)
    ensures var settled := Settled(t.journal, user, key);
      AcceptedUnder(t.journal, user, key) == if settled.Some? && settled.value.Accepted() then 1 else 0
  {
    assert EventsUnder(t.journal, user, key) <= 1;
    SettledCounts(t.journal, user, key);
    hide Settled;
  }

  /** A request under an unsettled key comes to be accepted exactly if the guards of its punch hold. */
  lemma ServedExactly(t: Tables, metric: Metric, env: Env, p: Punch)
    requires p.key.Some? && Settled(t.journal, p.user, p.key.value).None?
    ensures var settled := Settled(Punched(t, metric, env, p).0.journal, p.user, p.key.value);
      settled.Some? && settled.value.Accepted() <==> Accepts(t, metric, env, p)
  {
    hide Aggregated, Validate, LastSighting, Today, Settled;
    var key := p.key.value;
    Appended(t.journal, RecordOf(p, env.now, Some(|t.sessions|), None), p.user, key);
    Appended(t.journal, RecordOf(p, env.now, OpenSession(t.sessions, p.user), None), p.user, key);
    if env.workspace.Some? {
      Appended(t.journal, RecordOf(p, env.now, None, VerdictOn(t, metric, env, p).code), p.user, key);
    }
  }

  /** The move serves a request under the key in a state where the server accepts it. */
  predicate TakesEffect(w: World, metric: Metric, move: Move, key: Key) {
    && move.Serve? && move.attempt < |w.sent| && w.sent[move.attempt].key == Some(key)
    && Accepts(w.server, metric, move.env, w.sent[move.attempt])
  }

  lemma AcceptsUnsettled(t: Tables, metric: Metric, env: Env, p: Punch)
    requires p.key.Some? && Accepts(t, metric, env, p)
    ensures Settled(t.journal, p.user, p.key.value).None?
  {
    hide Settled, Validate;
  }

  /** An event that settles a key keeps deciding whether it was accepted. */
  lemma ExtendedAccepted(t: Tables, u: Tables, user: UserId, key: Key)
    requires Sound(t) && Sound(u) && Extends(t, u) && Settled(t.journal, user, key).Some?
    ensures AcceptedUnder(u.journal, user, key) == AcceptedUnder(t.journal, user, key)
  {
    AcceptedIsSettled(t, user, key);
    AcceptedIsSettled(u, user, key);
    hide Settled, Sound;
  }

  lemma ServeAccepts(w: World, me: UserId, metric: Metric, n: nat, env: Env, key: Key)
    requires Sound(w.server) && SentByMe(w, me) && n < |w.sent| && Settled(w.server.journal, me, key).None?
    ensures var u := Punched(w.server, metric, env, w.sent[n]).0;
      AcceptedUnder(u.journal, me, key) == if TakesEffect(w, metric, Serve(n, env), key) then 1 else 0
  {
    var p := w.sent[n];
    var u := Punched(w.server, metric, env, p).0;
    PunchSound(w.server, metric, env, p);
    AcceptedIsSettled(u, me, key);
    hide Punched, Settled, Accepts, Sound, Extends, AcceptedUnder;
    if p.key == Some(key) {
      ServedExactly(w.server, metric, env, p);
    } else if Settled(u.journal, me, key).Some? {
      PunchSettlesOnlyItsKey(w.server, metric, env, p, me, key);
    }
  }

  /** While nothing is accepted under a key, only such a move changes that. */
  lemma MoveAccepts(w: World, me: UserId, metric: Metric, move: Move, key: Key)
    requires Good(w, me) && Possible(w, me, move) && key in w.minted
    requires AcceptedUnder(w.server.journal, me, key) == 0
    ensures AcceptedUnder(After(w, me, metric, move).server.journal, me, key) ==
      if TakesEffect(w, metric, move, key) then 1 else 0
  {
    hide Settled, Punched, Next, Accepts, AcceptedUnder, Sound, Extends, RepliesTrue, ReportsBacked, KeysRetired,
      KindsAsked;
    MoveGood(w, me, metric, move);
    if move.Serve? || move.Elsewhere? {
      var u := After(w, me, metric, move).server;
      AcceptedIsSettled(u, me, key);
      if Settled(w.server.journal, me, key).Some? {
        if move.Serve? {
          PunchSound(w.server, metric, move.env, w.sent[move.attempt]);
          if TakesEffect(w, metric, move, key) { AcceptsUnsettled(w.server, metric, move.env, w.sent[move.attempt]); }
        } else {
          StepSound(w.server, metric, move.step);
        }
        ExtendedAccepted(w.server, u, me, key);
      } else if move.Serve? {
        ServeAccepts(w, me, metric, move.attempt, move.env, key);
      } else {
        ElsewhereSettlesNothing(w.server, metric, move.step, me, key);
      }
    }
  }

  /** Some move of the run takes effect under the key. */
  ghost predicate EverTakesEffect(w: World, me: UserId, metric: Metric, moves: seq<Move>, key: Key)
    decreases |moves|
  {
    && moves != [] && Possible(w, me, moves[0])
    && (TakesEffect(w, metric, moves[0], key) ||
         EverTakesEffect(After(w, me, metric, moves[0]), me, metric, moves[1..], key))
  }

  lemma MoveKeepsAccepted(w: World, me: UserId, metric: Metric, move: Move, key: Key)
    requires Good(w, me) && Possible(w, me, move) && AcceptedUnder(w.server.journal, me, key) == 1
    ensures AcceptedUnder(After(w, me, metric, move).server.journal, me, key) == 1
  {
    hide Settled, Punched, Next, AcceptedUnder, Sound, Extends, RepliesTrue, ReportsBacked, KeysRetired, KindsAsked,
      ClientState;
    MoveGood(w, me, metric, move);
    AcceptedIsSettled(w.server, me, key);
    if move.Serve? {
      PunchSound(w.server, metric, move.env, w.sent[move.attempt]);
      ExtendedAccepted(w.server, After(w, me, metric, move).server, me, key);
    } else if move.Elsewhere? {
      StepSound(w.server, metric, move.step);
      ExtendedAccepted(w.server, After(w, me, metric, move).server, me, key);
    }
  }

  lemma {:induction false} StaysAccepted(w: World, me: UserId, metric: Metric, moves: seq<Move>, w': World, key: Key)
    requires Good(w, me) && AcceptedUnder(w.server.journal, me, key) == 1 && Reaches(w, me, metric, moves, w')
    ensures AcceptedUnder(w'.server.journal, me, key) == 1
    decreases |moves|
  {
    hide Good, After, Possible, AcceptedUnder;
    if moves != [] {
      MoveGood(w, me, metric, moves[0]);
      MoveKeepsAccepted(w, me, metric, moves[0], key);
      StaysAccepted(After(w, me, metric, moves[0]), me, metric, moves[1..], w', key);
    }
  }

  lemma MintedStays(w: World, me: UserId, metric: Metric, move: Move)
    requires Possible(w, me, move)
    ensures w.minted <= After(w, me, metric, move).minted
  {
    hide Punched, Next, Settled;
  }

  /**
   When a refusal is final: whatever was refused before, something comes to be accepted under a key exactly if
   one of its requests is served again in a state where the guards of its punch hold.
   */
  lemma {:induction false} AcceptedExactlyWhenServed(w: World, me: UserId, metric: Metric, moves: seq<Move>, w': World,
        key: Key)
    requires Good(w, me) && key in w.minted && AcceptedUnder(w.server.journal, me, key) == 0
    requires Reaches(w, me, metric, moves, w')
    ensures AcceptedUnder(w'.server.journal, me, key) == if EverTakesEffect(w, me, metric, moves, key) then 1 else 0
    decreases |moves|
  {
    hide Good, After, Possible, AcceptedUnder, TakesEffect;
    if moves != [] {
      var next := After(w, me, metric, moves[0]);
      MoveGood(w, me, metric, moves[0]);
      MoveAccepts(w, me, metric, moves[0], key);
      MintedStays(w, me, metric, moves[0]);
      if TakesEffect(w, metric, moves[0], key) {
        StaysAccepted(next, me, metric, moves[1..], w', key);
      } else {
        AcceptedExactlyWhenServed(next, me, metric, moves[1..], w', key);
      }
    }
  }

  /** The run serves one of the requests already sent under the key. */
  predicate ServesAgain(w: World, moves: seq<Move>, key: Key) {
    exists i ::
      0 <= i < |moves| && moves[i].Serve? && moves[i].attempt < |w.sent| && w.sent[moves[i].attempt].key == Some(key)
  }

  lemma GivenUpStays(w: World, me: UserId, metric: Metric, moves: seq<Move>, key: Key)
    requires moves != [] && Possible(w, me, moves[0]) && key in w.minted && w.pending != Some(key) &&
      !ServesAgain(w, moves, key)
    ensures var next := After(w, me, metric, moves[0]);
      && !TakesEffect(w, metric, moves[0], key)
      && next.pending != Some(key) && !ServesAgain(next, moves[1..], key)
  {
    hide Punched, Next, Settled, Accepts, Concludes;
    var next := After(w, me, metric, moves[0]);
    assert forall n :: |w.sent| <= n < |next.sent| ==> next.sent[n].key != Some(key);
    forall i | 0 <= i < |moves[1..]| && moves[1..][i].Serve? && moves[1..][i].attempt < |next.sent|
      ensures next.sent[moves[1..][i].attempt].key != Some(key)
    {
      assert moves[i + 1].Serve?;
    }
  }

  /** Nothing is ever accepted under a key the page has given up, unless one of its requests is delivered again. */
  lemma {:induction false} GivenUpIsFinalUnlessServed(w: World, me: UserId, metric: Metric, moves: seq<Move>, w': World,
        key: Key)
    requires Good(w, me) && key in w.minted && w.pending != Some(key) && AcceptedUnder(w.server.journal, me, key) == 0
    requires Reaches(w, me, metric, moves, w') && !ServesAgain(w, moves, key)
    ensures AcceptedUnder(w'.server.journal, me, key) == 0 && w'.pending != Some(key)
    decreases |moves|
  {
    hide Good, After, Possible, AcceptedUnder, TakesEffect, ServesAgain;
    if moves != [] {
      MoveGood(w, me, metric, moves[0]);
      MoveAccepts(w, me, metric, moves[0], key);
      MintedStays(w, me, metric, moves[0]);
      GivenUpStays(w, me, metric, moves, key);
      GivenUpIsFinalUnlessServed(After(w, me, metric, moves[0]), me, metric, moves[1..], w', key);
    }
  }

  // ----------------------------------------------- what it does not promise

  /**
   Keys are not scoped by direction: retrying in any direction under a key that is already settled by an
   accepted punch reports success, hands back the old session and changes nothing on the server.
   */
  lemma SettledKeyAlwaysSucceeds(w: World, me: UserId, metric: Metric, ask: Move, env: Env)
    returns (reply: Reply, w': World)
    requires Good(w, me) && w.waiting.None? && w.pending.Some? && ask.Send?
    requires Settled(w.server.journal, me, w.pending.value).Some?
    requires Settled(w.server.journal, me, w.pending.value).value.Accepted()
    requires env.workspace.Some? && env.account.Enabled?
    ensures Reaches(w, me, metric, [ask, Serve(|w.sent|, env), Deliver(reply)], w')
    ensures reply.Done? && Some(reply.session) == Settled(w.server.journal, me, w.pending.value).value.session
    ensures w'.server == w.server && w'.reports == w.reports + [Report(|w.sent|, Answered(reply))]
    ensures |w'.sent| == |w.sent| + 1 && w'.sent[|w.sent|].kind == ask.kind && w'.sent[|w.sent|].key == w.pending
  {
    hide Aggregated, Today, Validate, LastSighting, Settled;
    var w1 := After(w, me, metric, ask);
    var p := w1.sent[|w.sent|];
    var settled := Settled(w.server.journal, me, w.pending.value).value;
    assert Attempt(settled) in w.server.journal;
    reply := Punched(w.server, metric, env, p).1;
    ReplayChangesNothing(w.server, metric, env, p);
    var w2 := After(w1, me, metric, Serve(|w.sent|, env));
    hide Punched;
    w' := After(w2, me, metric, Deliver(reply));
    ThreeMoves(w, me, metric, ask, Serve(|w.sent|, env), Deliver(reply));
  }

  lemma ThreeMoves(w: World, me: UserId, metric: Metric, a: Move, b: Move, c: Move)
    requires Possible(w, me, a) && Possible(After(w, me, metric, a), me, b)
    requires Possible(After(After(w, me, metric, a), me, metric, b), me, c)
    ensures Reaches(w, me, metric, [a, b, c], After(After(After(w, me, metric, a), me, metric, b), me, metric, c))
  {
    hide After, Possible;
    var w1 := After(w, me, metric, a);
    var w2 := After(w1, me, metric, b);
    assert [a, b, c][1..] == [b, c] && [b, c][1..] == [c] && [c][1..] == [];
    assert Reaches(After(w2, me, metric, c), me, metric, [], After(w2, me, metric, c));
    assert Reaches(w2, me, metric, [c], After(w2, me, metric, c));
    assert Reaches(w1, me, metric, [b, c], After(w2, me, metric, c));
  }

  /**
   A refusal for the session's state is not final: while a key is unsettled, a request under it that is delivered
   again is accepted exactly when a first one would be: a punch-in when the user has no open session, a punch-out
   when there is one begun before the server's instant. The page may long have given the key up.
   */
  lemma StaleRefusalIsNotFinal(w: World, me: UserId, metric: Metric, n: nat, env: Env)
    requires Good(w, me) && n < |w.sent| && Settled(w.server.journal, me, w.sent[n].key.value).None?
    ensures var w' := After(w, me, metric, Serve(n, env));
      var p := w.sent[n];
      var open := OpenSession(w.server.sessions, me);
      var heard := env.workspace.Some? && env.account.Enabled? && VerdictOn(w.server, metric, env, p).Accepted();
      var accepted := AcceptedUnder(w'.server.journal, me, p.key.value) == 1;
      && w'.reports == w.reports && w'.pending == w.pending
      && (p.kind.In? ==> (accepted <==> heard && open.None?))
      && (p.kind.Out? ==> (accepted <==> heard && open.Some? && w.server.sessions[open.value].punchIn < env.now))
      && (p.kind.In? && accepted ==> |w'.server.sessions| == |w.server.sessions| + 1)
      && (p.kind.Out? && accepted ==>
           w'.server.sessions[open.value] == w.server.sessions[open.value].Closed(env.now, Completed))
      && (!accepted ==> w'.server.sessions == w.server.sessions)
  {
    hide Aggregated, Today, Validate, LastSighting, Settled, AcceptedUnder, Sound, RepliesTrue, ReportsBacked,
      ClientState, KeysRetired, KindsAsked;
    ServeAccepts(w, me, metric, n, env, w.sent[n].key.value);
  }

  const SPOT: Place := Place(10.0, 10.0)

  /** Where everywhere is the same place, a well-formed reading is accepted and no movement looks fast. */
  lemma CalmVerdict(t: Tables, env: Env, p: Punch)
    requires env.workspace.Some? && p.place == SPOT && p.accuracy == 1.0
    ensures VerdictOn(t, NoDistance, env, p).Accepted()
  {
  }

  lemma {:induction false} ReachesJoin(u: World, me: UserId, metric: Metric, before: seq<Move>, v: World,
        later: seq<Move>, w: World)
    requires Reaches(u, me, metric, before, v) && Reaches(v, me, metric, later, w)
    ensures Reaches(u, me, metric, before + later, w)
    decreases |before|
  {
    hide After, Possible;
    if before == [] {
      assert before + later == later;
    } else {
      ReachesJoin(After(u, me, metric, before[0]), me, metric, before[1..], v, later, w);
      assert (before + later)[1..] == before[1..] + later;
    }
  }

  /** A world in which a punch-in was accepted but its answer was lost; the page still holds the key. */
  lemma AnswerLost(me: UserId, env: Env, key: Key) returns (moves: seq<Move>, w: World)
    requires env.workspace.Some? && env.account.Enabled?
    ensures Reaches(Start(EmptyTables), me, NoDistance, moves, w)
    ensures w.waiting.None? && w.pending == Some(key) && w.reports == [Report(0, Unreachable(NetworkDown))]
    ensures var settled := Settled(w.server.journal, me, key);
      settled.Some? && settled.value.Accepted() && settled.value.kind.In?
  {
    var p := Punch(me, In, Some(key), SPOT, 1.0);
    FirstPunchAccepted(env, p, key);
    hide Punched, Settled, Reaches;
    var ask := Send(In, SPOT, 1.0, key);
    var w1 := After(Start(EmptyTables), me, NoDistance, ask);
    assert w1.sent[0] == p;
    var w2 := After(w1, me, NoDistance, Serve(0, env));
    w := After(w2, me, NoDistance, Lose(NetworkDown));
    moves := [ask, Serve(0, env), Lose(NetworkDown)];
    ThreeMoves(Start(EmptyTables), me, NoDistance, ask, Serve(0, env), Lose(NetworkDown));
  }

  lemma FirstPunchAccepted(env: Env, p: Punch, key: Key)
    requires env.workspace.Some? && env.account.Enabled?
    requires p.kind.In? && p.key == Some(key) && p.place == SPOT && p.accuracy == 1.0
    ensures Settled(EmptyTables.journal, p.user, key).None?
    ensures var settled := Settled(Punched(EmptyTables, NoDistance, env, p).0.journal, p.user, key);
      settled.Some? && settled.value.Accepted() && settled.value.kind.In?
  {
    hide Aggregated, Today;
    CalmVerdict(EmptyTables, env, p);
    DoneIsSettled(EmptyTables, NoDistance, env, p);
    PunchSettlesOnlyItsKey(EmptyTables, NoDistance, env, p, p.user, key);
  }

  /** The page can report a successful punch-out although the user was only ever punched in. */
  lemma WrongDirectionHappens(me: UserId, env: Env, key: Key) returns (moves: seq<Move>, w: World, session: nat)
    requires env.workspace.Some? && env.account.Enabled?
    ensures Reaches(Start(EmptyTables), me, NoDistance, moves, w)
    ensures w.reports != [] && var last := w.reports[|w.reports| - 1];
      && last.outcome.Answered? && last.outcome.reply.Done?
      && last.attempt < |w.sent| && w.sent[last.attempt].kind.Out? && w.sent[last.attempt].key == Some(key)
    ensures Settled(w.server.journal, me, key).Some? && Settled(w.server.journal, me, key).value.kind.In?
    ensures EventsUnder(w.server.journal, me, key) == 1
  {
    var lost, before := AnswerLost(me, env, key);
    EmptySound();
    ReachableGood(Start(EmptyTables), me, NoDistance, lost, before);
    var ask := Send(Out, SPOT, 1.0, key);
    var reply;
    reply, w := SettledKeyAlwaysSucceeds(before, me, NoDistance, ask, env);
    session := reply.session;
    var later := [ask, Serve(|before.sent|, env), Deliver(reply)];
    moves := lost + later;
    ReachesJoin(Start(EmptyTables), me, NoDistance, lost, before, later, w);
    SettledCounts(w.server.journal, me, key);
  }

  /** The page was told "already punched in", gave up its key, and the user has since left on another device. */
  lemma RefusedThenLeft(me: UserId, ws: Workspace, key: Key, env: Env) returns (t: Tables, moves: seq<Move>, w: World)
    requires env == Env(Some(ws), Enabled, 1_000_000)
    ensures t == Punched(EmptyTables, NoDistance, Env(Some(ws), Enabled, 0), Punch(me, In, None, SPOT, 1.0)).0
    ensures Sound(t) && Reaches(Start(t), me, NoDistance, moves, w)
    ensures w.pending.None? && w.reports == [Report(0, Answered(Refused(AlreadyPunchedIn)))]
    ensures w.sent == [Punch(me, In, Some(key), SPOT, 1.0)]
    ensures Settled(w.server.journal, me, key).None? && OpenSession(w.server.sessions, me).None?
  {
    var enter := Punch(me, In, None, SPOT, 1.0);
    t := KeylessPunchIn(ws, enter);
    KeylessEntry(t, ws, me, key, enter);
    RefusedWhileIn(t, ws, me, key, env, enter.(key := Some(key)));
    LeavingAgain(t, ws, me, key, env, enter.(kind := Out));
    hide Punched, Settled, OpenSession, Sound, AfterPunchIn;
    moves, w := RefusedMoves(t, me, key, In, AlreadyPunchedIn, env, Punching(env, enter.(kind := Out)));
  }

  /** The page was told "not punched in", gave up its key, and the user has since entered on another device. */
  lemma RefusedThenEntered(me: UserId, ws: Workspace, key: Key) returns (moves: seq<Move>, w: World)
    ensures Reaches(Start(EmptyTables), me, NoDistance, moves, w)
    ensures w.pending.None? && w.reports == [Report(0, Answered(Refused(NoActiveSession)))]
    ensures w.sent == [Punch(me, Out, Some(key), SPOT, 1.0)]
    ensures Settled(w.server.journal, me, key).None?
    ensures w.server.sessions == [NewSession(me, LocalDate(0, ws.offset), 0)]
  {
    var first, enter := Env(Some(ws), Enabled, 0), Punch(me, In, None, SPOT, 1.0);
    var t := KeylessPunchIn(ws, enter);
    KeylessEntry(t, ws, me, key, enter);
    hide Punched, Settled, OpenSession, Sound, AfterPunchIn;
    moves, w := RefusedMoves(EmptyTables, me, key, Out, NoActiveSession, first, Punching(first, enter));
  }

  lemma KeylessEntry(t: Tables, ws: Workspace, me: UserId, key: Key, enter: Punch)
    requires enter == Punch(me, In, None, SPOT, 1.0) && t == AfterPunchIn(EmptyTables, ws, 0, enter)
    ensures Settled(EmptyTables.journal, me, key).None? && Settled(t.journal, me, key).None?
    ensures t.sessions == [NewSession(me, LocalDate(0, ws.offset), 0)]
    ensures var first := Env(Some(ws), Enabled, 0);
      Punched(EmptyTables, NoDistance, first, Punch(me, Out, Some(key), SPOT, 1.0)) ==
        (EmptyTables, Refused(NoActiveSession))
  {
    hide Aggregated, Today;
    assert [] + [RecordOf(enter, 0, Some(0), None)] == t.journal;
    Appended([], RecordOf(enter, 0, Some(0), None), me, key);
  }

  lemma KeylessPunchIn(ws: Workspace, enter: Punch) returns (t: Tables)
    requires enter.kind.In? && enter.key.None? && enter.place == SPOT && enter.accuracy == 1.0
    ensures Sound(t) && t == AfterPunchIn(EmptyTables, ws, 0, enter)
    ensures t == Punched(EmptyTables, NoDistance, Env(Some(ws), Enabled, 0), enter).0
  {
    hide Aggregated, Today;
    var first := Env(Some(ws), Enabled, 0);
    t := Punched(EmptyTables, NoDistance, first, enter).0;
    CalmVerdict(EmptyTables, first, enter);
    EmptySound();
    PunchSound(EmptyTables, NoDistance, first, enter);
  }

  /** One request refused as out of date and the key given up, then a step elsewhere. */
  lemma RefusedMoves(t: Tables, me: UserId, key: Key, kind: PunchType, code: Code, env: Env, other: Step)
    returns (moves: seq<Move>, w: World)
    requires other.Punching? && other.punch.key.None? && Settled(t.journal, me, key).None? && IsStaleViewCode(code)
    requires Punched(t, NoDistance, env, Punch(me, kind, Some(key), SPOT, 1.0)) == (t, Refused(code))
    ensures Reaches(Start(t), me, NoDistance, moves, w)
    ensures w.pending.None? && w.reports == [Report(0, Answered(Refused(code)))]
    ensures w.sent == [Punch(me, kind, Some(key), SPOT, 1.0)]
    ensures w.server == Punched(t, NoDistance, other.env, other.punch).0
  {
    hide Punched, Settled, Reaches;
    var ask, serve, deliver := Send(kind, SPOT, 1.0, key), Serve(0, env), Deliver(Refused(code));
    var away := Elsewhere(other);
    var w1 := After(Start(t), me, NoDistance, ask);
    assert w1.sent == [Punch(me, kind, Some(key), SPOT, 1.0)];
    var w2 := After(w1, me, NoDistance, serve);
    var w3 := After(w2, me, NoDistance, deliver);
    ThreeMoves(Start(t), me, NoDistance, ask, serve, deliver);
    w := After(w3, me, NoDistance, away);
    OneMove(w3, me, NoDistance, away);
    moves := [ask, serve, deliver] + [away];
    ReachesJoin(Start(t), me, NoDistance, [ask, serve, deliver], w3, [away], w);
  }

  lemma OneMove(w: World, me: UserId, metric: Metric, a: Move)
    requires Possible(w, me, a)
    ensures Reaches(w, me, metric, [a], After(w, me, metric, a))
  {
    hide After, Possible;
    assert [a][1..] == [];
    assert Reaches(After(w, me, metric, a), me, metric, [], After(w, me, metric, a));
  }

  /** The page can report "already punched in" for a request that is accepted later. */
  lemma LateAcceptanceHappens(me: UserId, ws: Workspace, key: Key)
    returns (t: Tables, moves: seq<Move>, w: World, env: Env)
    ensures t == Punched(EmptyTables, NoDistance, Env(Some(ws), Enabled, 0), Punch(me, In, None, SPOT, 1.0)).0
    ensures Sound(t) && Reaches(Start(t), me, NoDistance, moves, w)
    ensures w.pending.None? && w.reports == [Report(0, Answered(Refused(AlreadyPunchedIn)))]
    ensures w.sent == [Punch(me, In, Some(key), SPOT, 1.0)]
    ensures AcceptedUnder(w.server.journal, me, key) == 0
    ensures AcceptedUnder(After(w, me, NoDistance, Serve(0, env)).server.journal, me, key) == 1
  {
    env := Env(Some(ws), Enabled, 1_000_000);
    t, moves, w := RefusedThenLeft(me, ws, key, env);
    StartGood(t, me);
    ReachableGood(Start(t), me, NoDistance, moves, w);
    CalmVerdict(w.server, env, w.sent[0]);
    hide Good, Reaches, Settled, OpenSession, VerdictOn, After;
    StaleRefusalIsNotFinal(w, me, NoDistance, 0, env);
    SettledCounts(w.server.journal, me, key);
  }

  /** The page can report "not punched in" for a request to leave that later closes a session begun since. */
  lemma LateDepartureHappens(me: UserId, ws: Workspace, key: Key) returns (moves: seq<Move>, w: World, env: Env)
    ensures Reaches(Start(EmptyTables), me, NoDistance, moves, w)
    ensures w.pending.None? && w.reports == [Report(0, Answered(Refused(NoActiveSession)))]
    ensures w.sent == [Punch(me, Out, Some(key), SPOT, 1.0)]
    ensures AcceptedUnder(w.server.journal, me, key) == 0
    ensures w.server.sessions == [NewSession(me, LocalDate(0, ws.offset), 0)]
    ensures var w' := After(w, me, NoDistance, Serve(0, env));
      AcceptedUnder(w'.server.journal, me, key) == 1 && |w'.server.sessions| == 1 &&
        w'.server.sessions[0].punchOut == Some(env.now)
  {
    env := Env(Some(ws), Enabled, 1_000_000);
    moves, w := RefusedThenEntered(me, ws, key);
    EmptySound();
    StartGood(EmptyTables, me);
    ReachableGood(Start(EmptyTables), me, NoDistance, moves, w);
    CalmVerdict(w.server, env, w.sent[0]);
    assert OpenSession(w.server.sessions, me) == Some(0);
    hide Good, Reaches, Settled, OpenSession, VerdictOn, After;
    StaleRefusalIsNotFinal(w, me, NoDistance, 0, env);
    SettledCounts(w.server.journal, me, key);
  }

  lemma StartGood(t: Tables, me: UserId)
    requires Sound(t)
    ensures Good(Start(t), me)
  {
  }

  lemma RefusedWhileIn(t: Tables, ws: Workspace, me: UserId, key: Key, env: Env, p: Punch)
    requires t.sessions == [NewSession(me, LocalDate(0, ws.offset), 0)] && Settled(t.journal, me, key).None?
    requires env == Env(Some(ws), Enabled, 1_000_000) && p == Punch(me, In, Some(key), SPOT, 1.0)
    ensures Punched(t, NoDistance, env, p) == (t, Refused(AlreadyPunchedIn))
  {
    hide Aggregated, Today, Settled, Validate, LastSighting;
  }

  lemma LeavingAgain(t: Tables, ws: Workspace, me: UserId, key: Key, env: Env, leave: Punch)
    requires t.sessions == [NewSession(me, LocalDate(0, ws.offset), 0)] && Settled(t.journal, me, key).None?
    requires env == Env(Some(ws), Enabled, 1_000_000) && leave == Punch(me, Out, None, SPOT, 1.0)
    ensures var u := Punched(t, NoDistance, env, leave).0;
      Settled(u.journal, me, key).None? && OpenSession(u.sessions, me).None?
  {
    CalmVerdict(t, env, leave);
    hide Aggregated, Today, Validate, LastSighting, Settled;
    var u := Punched(t, NoDistance, env, leave).0;
    assert u.journal == t.journal + [RecordOf(leave, env.now, Some(0), None)];
    assert u.sessions == [t.sessions[0].Closed(env.now, Completed)];
    Appended(t.journal, RecordOf(leave, env.now, Some(0), None), me, key);
  }
}
