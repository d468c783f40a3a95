/**
 One page with a single refresh in flight: it presents a token that was already rotated away only after the
 reply to a rotation was lost, and then exactly the surviving row of that token ends its session.
 */
module SinglePage {
  import opened Base
  import opened Clock
  import opened Auth
  import opened TokenFamilies

  /** A refresh is sent only if the slot is free; otherwise the caller shares the one in flight. */
  predicate Sends(refreshing: bool) { !refreshing }

  /** The module variables of the fetch wrapper. */
  class ApiClient {
    var accessToken: Option<Bearer>
    var refreshing: bool
    var sessionLost: bool

    constructor ()
      ensures accessToken == None && !refreshing && !sessionLost
    {
      accessToken, refreshing, sessionLost := None, false, false;
    }

    /** A caller asking for a refresh sends one only if none is in flight; otherwise it shares that one. */
    method RefreshSession() returns (send: bool)
      modifies this
      ensures refreshing && send == Sends(old(refreshing))
      ensures accessToken == old(accessToken) && sessionLost == old(sessionLost)
    {
      send := false;
      if !refreshing {
        refreshing := true;
        send := true;
      }
    }

    /** The shared refresh settles: the new access token is kept, and the slot is freed either way. */
    method Settled(r: Answer)
      modifies this
      ensures !refreshing && sessionLost == old(sessionLost)
      ensures accessToken == if r.Session? then Some(r.bearer) else old(accessToken)
    {
      if r.Session? { accessToken := Some(r.bearer); }
      refreshing := false;
    }

    /** Whether an unauthorised answer asks for a refresh and one retry; any other one ends the session. */
    method Unauthorised(code: Code, retryOn401: bool) returns (refresh: bool)
      modifies this
      ensures refresh <==> retryOn401 && (code.TokenExpired? || code.NotAuthenticated?)
      ensures if retryOn401 && !refresh then accessToken == None && sessionLost
              else accessToken == old(accessToken) && sessionLost == old(sessionLost)
      ensures refreshing == old(refreshing)
    {
      if !retryOn401 { return false; }
      if code == TokenExpired || code == NotAuthenticated { return true; }
      accessToken := None;
      sessionLost := true;
      return false;
    }

    /** A failed refresh ends the session for the request that waited on it. */
    method RefreshFailed()
      modifies this
      ensures accessToken == None && sessionLost && refreshing == old(refreshing)
    {
      accessToken := None;
      sessionLost := true;
    }
  }

  datatype Flight = Idle | Asked(presented: TokenId) | Replied(replacement: TokenId)

  /** The page's cookie and its one refresh slot, beside the server's tables. */
  datatype World = World(l: Ledger, family: Family, cookie: TokenId, flight: Flight) {
    predicate Refreshing() { !flight.Idle? }
  }

  datatype Move =
    | Begin
    | Join
    | Handle(now: Instant)
    | Deliver
    | DropRequest
    | LoseReply
    | Elsewhere(step: Step)

  function LiveRow(a: Tables, id: TokenId): bool { id in a.tokens && a.tokens[id].Live() }

  /** A live token presented is unexpired and its user active. */
  predicate Servable(a: Tables, id: TokenId, now: Instant) {
    LiveRow(a, id) ==> now < a.tokens[id].expiresAt && a.tokens[id].user in a.users && a.users[a.tokens[id].user].active
  }

  /** Nothing else revokes, rotates or purges the live token of this family. */
  predicate LeavesAlone(l: Ledger, cfg: Config, step: Step, f: Family) {
    && f in l.chains && f in Recorded(l, cfg, step).chains && Recorded(l, cfg, step).chains[f] == l.chains[f]
    && forall id :: id in l.chains[f] && LiveRow(l.a, id) ==>
         LiveRow(Apply(l.a, cfg, step).0, id) && Apply(l.a, cfg, step).0.tokens[id].family == f
  }

  predicate Possible(w: World, cfg: Config, move: Move) {
    match move
    case Begin => Sends(w.Refreshing())
    case Join => !Sends(w.Refreshing())
    case Handle(now) => w.flight.Asked? && Servable(w.l.a, w.flight.presented, now)
    case Deliver => w.flight.Replied?
    case DropRequest => w.flight.Asked?
    case LoseReply => w.flight.Replied?
    case Elsewhere(step) => LeavesAlone(w.l, cfg, step, w.family)
  }

  function After(w: World, cfg: Config, move: Move): World
    requires Possible(w, cfg, move)
  {
    match move
    case Begin => w.(flight := Asked(w.cookie))
    case Join => w
    case Handle(now) =>
      var r := Apply(w.l.a, cfg, Refresh(w.flight.presented, now)).1;
      w.(l := Recorded(w.l, cfg, Refresh(w.flight.presented, now)),
         flight := if r.Session? then Replied(r.refresh) else Idle)
    case Deliver => w.(cookie := w.flight.replacement, flight := Idle)
    case DropRequest => w.(flight := Idle)
    case LoseReply => w.(flight := Idle)
    case Elsewhere(step) => w.(l := Recorded(w.l, cfg, step))
  }

  // ------------------------------------------------------------- invariants

  /** The cookie is some token of the page's family, and a reply under way carries its newest. */
  ghost predicate Tracked(w: World) {
    && Good(w.l) && w.family in w.l.chains && w.cookie in w.l.chains[w.family]
    && match w.flight
       case Idle => true
       case Asked(id) => id == w.cookie
       case Replied(id) => id == Newest(w.l.chains[w.family]) && w.cookie != id
  }

  ghost predicate Alive(w: World)
    requires Tracked(w)
  {
    var newest := Newest(w.l.chains[w.family]);
    LiveRow(w.l.a, newest) && w.l.a.tokens[newest].family == w.family
  }

  /** The token the page will hold once its flight lands is the family's newest, and live. */
  ghost predicate InStep(w: World) {
    Tracked(w) && Alive(w) && (w.flight.Replied? || w.cookie == Newest(w.l.chains[w.family]))
  }

  /** The page is about to present, or has presented, a rotated token that the server still remembers. */
  ghost predicate Burns(w: World, move: Move)
    requires Tracked(w)
  {
    move.Handle? && w.flight.Asked? && w.cookie != Newest(w.l.chains[w.family]) && w.cookie in w.l.a.tokens
  }

  /** Whoever registers or signs in starts with the only token of a new family. */
  lemma StartInStep(l: Ledger, cfg: Config, step: Step)
    requires Good(l) && (step.Register? || step.Login?) && Apply(l.a, cfg, step).1.Session?
    ensures InStep(World(Recorded(l, cfg, step), l.a.nextFamily, Apply(l.a, cfg, step).1.refresh, Idle))
  {
    NewFamily(l, cfg, step);
    StepGood(l, cfg, step);
    hide Apply, Good, Separate, NewestOnly;
  }

  lemma {:induction false} HandledInStep(w: World, cfg: Config, now: Instant)
    requires InStep(w) && Possible(w, cfg, Handle(now))
    ensures Apply(w.l.a, cfg, Refresh(w.flight.presented, now)).1.Session?
    ensures InStep(After(w, cfg, Handle(now)))
  {
    var step := Refresh(w.flight.presented, now);
    assert Apply(w.l.a, cfg, step).1.Session?;
    Rotation(w.l, cfg, step);
    StepGood(w.l, cfg, step);
    hide Apply, Separate, NewestOnly;
  }

  lemma RecordedTables(l: Ledger, cfg: Config, step: Step)
    ensures Recorded(l, cfg, step).a == Apply(l.a, cfg, step).0
  {
    hide Apply;
  }

  lemma {:induction false} ElsewhereTracked(w: World, cfg: Config, step: Step)
    requires Tracked(w) && LeavesAlone(w.l, cfg, step, w.family)
    ensures Tracked(w.(l := Recorded(w.l, cfg, step)))
    ensures Recorded(w.l, cfg, step).chains[w.family] == w.l.chains[w.family]
    ensures Alive(w) ==> Alive(w.(l := Recorded(w.l, cfg, step)))
    ensures Dead(w.l.a, w.family) ==> Dead(Recorded(w.l, cfg, step).a, w.family)
  {
    hide Apply, Good, Dead, Recorded;
    StepGood(w.l, cfg, step);
    RecordedTables(w.l, cfg, step);
    if Dead(w.l.a, w.family) { DeadStaysDead(w.l, cfg, step, w.family); }
  }

  /** What presenting a token that cannot be rotated does. */
  lemma {:induction false} RefusedTracked(w: World, cfg: Config, now: Instant)
    requires Tracked(w) && w.flight.Asked? && Possible(w, cfg, Handle(now))
    requires !Alive(w) || w.cookie != Newest(w.l.chains[w.family])
    requires !Alive(w) ==> Dead(w.l.a, w.family)
    ensures Tracked(After(w, cfg, Handle(now))) && After(w, cfg, Handle(now)).flight.Idle?
    ensures After(w, cfg, Handle(now)).l.chains == w.l.chains
    ensures Alive(w) ==> (Dead(After(w, cfg, Handle(now)).l.a, w.family) <==> Burns(w, Handle(now)))
    ensures Alive(w) && !Burns(w, Handle(now)) ==> Alive(After(w, cfg, Handle(now)))
    ensures Dead(w.l.a, w.family) ==> Dead(After(w, cfg, Handle(now)).l.a, w.family)
  {
    var step := Refresh(w.cookie, now);
    StepGood(w.l, cfg, step);
    NotLiveNotRotated(w, cfg, now);
    if w.cookie != Newest(w.l.chains[w.family]) {
      ReuseKillsExactly(w.l, cfg, w.family, w.cookie, now);
      if w.cookie !in w.l.a.tokens { PurgedTokenIsInert(w.l.a, cfg, step); }
    }
    if Dead(w.l.a, w.family) { DeadStaysDead(w.l, cfg, step, w.family); }
    hide Apply, Good;
  }

  lemma NotLiveNotRotated(w: World, cfg: Config, now: Instant)
    requires Tracked(w)
    requires Dead(w.l.a, w.family) || w.cookie != Newest(w.l.chains[w.family])
    ensures !Apply(w.l.a, cfg, Refresh(w.cookie, now)).1.Session?
  {
    if w.cookie in w.l.a.tokens { assert w.cookie in w.l.chains[w.l.a.tokens[w.cookie].family]; }
  }

  ghost predicate AliveOrDead(w: World) { Tracked(w) && (Alive(w) || Dead(w.l.a, w.family)) }

  lemma AliveNotDead(w: World)
    requires Tracked(w) && Alive(w)
    ensures !Dead(w.l.a, w.family)
  {
  }

  /** One move: the family dies exactly in a move that burns it, and never revives. */
  lemma {:induction false} MoveTracked(w: World, cfg: Config, move: Move)
    requires AliveOrDead(w) && Possible(w, cfg, move)
    ensures AliveOrDead(After(w, cfg, move))
    ensures After(w, cfg, move).family == w.family
    ensures Dead(After(w, cfg, move).l.a, w.family) <==> Dead(w.l.a, w.family) || Burns(w, move)
    ensures InStep(w) && !move.LoseReply? ==> InStep(After(w, cfg, move))
  {
    hide Apply, Good, Dead, Recorded, Servable, LeavesAlone;
    if Alive(w) { AliveNotDead(w); }
    match move
    case Begin =>
    case Join =>
    case Deliver =>
    case DropRequest =>
    case LoseReply =>
    case Elsewhere(step) =>
      ElsewhereTracked(w, cfg, step);
      if Alive(w) { AliveNotDead(After(w, cfg, move)); }
    case Handle(now) =>
      if InStep(w) {
        HandledInStep(w, cfg, now);
        AliveNotDead(After(w, cfg, move));
      } else {
        RefusedTracked(w, cfg, now);
      }
  }

  // ------------------------------------------------------------------- runs

  ghost predicate Reaches(w0: World, cfg: Config, moves: seq<Move>, w: World)
    decreases |moves|
  {
    if moves == [] then w == w0 else
    Possible(w0, cfg, moves[0]) && Reaches(After(w0, cfg, moves[0]), cfg, moves[1..], w)
  }

  /** Some move of the run presents a rotated token that the server still remembers. */
  ghost predicate EverBurns(w: World, cfg: Config, moves: seq<Move>)
    decreases |moves|
  {
    && moves != [] && Tracked(w) && Possible(w, cfg, moves[0])
    && (Burns(w, moves[0]) || EverBurns(After(w, cfg, moves[0]), cfg, moves[1..]))
  }

  /**
   Replies may be lost: the page then holds a rotated token, and its session ends exactly when it presents that
   token while the server still has its row.
   */
  lemma {:induction false} BurntExactly(w0: World, cfg: Config, moves: seq<Move>, w: World)
    requires AliveOrDead(w0) && Reaches(w0, cfg, moves, w)
    ensures AliveOrDead(w) && w.family == w0.family
    ensures Dead(w.l.a, w.family) <==> Dead(w0.l.a, w0.family) || EverBurns(w0, cfg, moves)
    decreases |moves|
  {
    hide AliveOrDead, Possible, After, Dead, Burns;
    if moves != [] {
      MoveTracked(w0, cfg, moves[0]);
      TrackedIfAliveOrDead(w0);
      BurntExactly(After(w0, cfg, moves[0]), cfg, moves[1..], w);
    }
  }

  lemma TrackedIfAliveOrDead(w: World)
    requires AliveOrDead(w)
    ensures Tracked(w)
  {
  }

  /**
   The next refresh after a lost reply is refused, and ends the session exactly if the rotated token still has its row.
   */
  lemma LostReplyBurnsExactly(w: World, cfg: Config, now: Instant)
    requires InStep(w) && w.flight.Replied?
    ensures Possible(w, cfg, LoseReply) && Possible(After(w, cfg, LoseReply), cfg, Begin)
    ensures var asked := After(After(w, cfg, LoseReply), cfg, Begin);
      && Possible(asked, cfg, Handle(now))
      && Apply(asked.l.a, cfg, Refresh(w.cookie, now)).1 == Denied(TokenInvalid)
      && (Dead(After(asked, cfg, Handle(now)).l.a, w.family) <==> w.cookie in w.l.a.tokens)
  {
    var asked := After(After(w, cfg, LoseReply), cfg, Begin);
    if w.cookie in w.l.a.tokens { assert w.cookie in w.l.chains[w.l.a.tokens[w.cookie].family]; }
    ReuseKillsExactly(w.l, cfg, w.family, w.cookie, now);
    AliveNotDead(w);
    hide Apply, Good, Dead;
  }

  /**
   However callers join in and requests are dropped, a page that starts with its family's live token and loses no
   reply always presents a live token: every refresh succeeds, the reuse branch is never reached, and between
   refreshes the cookie is the family's newest token.
   */
  lemma {:induction false} NeverPresentsRotatedToken(w0: World, cfg: Config, moves: seq<Move>, w: World)
    requires InStep(w0) && Reaches(w0, cfg, moves, w)
    requires forall i :: 0 <= i < |moves| ==> !moves[i].LoseReply?
    ensures InStep(w)
    ensures w.flight.Idle? ==> w.cookie == Newest(w.l.chains[w.family]) && LiveRow(w.l.a, w.cookie)
    ensures forall now :: Possible(w, cfg, Handle(now)) ==>
      LiveRow(w.l.a, w.flight.presented) && Apply(w.l.a, cfg, Refresh(w.flight.presented, now)).1.Session?
    decreases |moves|
  {
    hide InStep, Possible, After, Good, Apply, AliveOrDead;
    if moves == [] {
      InStepPresents(w, cfg);
    } else {
      InStepAlive(w0);
      MoveTracked(w0, cfg, moves[0]);
      NeverPresentsRotatedToken(After(w0, cfg, moves[0]), cfg, moves[1..], w);
    }
  }

  lemma InStepAlive(w: World)
    requires InStep(w)
    ensures AliveOrDead(w)
  {
  }

  lemma InStepPresents(w: World, cfg: Config)
    requires InStep(w)
    ensures w.family in w.l.chains && w.l.chains[w.family] != []
    ensures w.flight.Idle? ==> w.cookie == Newest(w.l.chains[w.family]) && LiveRow(w.l.a, w.cookie)
    ensures forall now :: Possible(w, cfg, Handle(now)) ==>
      LiveRow(w.l.a, w.flight.presented) && Apply(w.l.a, cfg, Refresh(w.flight.presented, now)).1.Session?
  {
    forall now | Possible(w, cfg, Handle(now))
      ensures Apply(w.l.a, cfg, Refresh(w.flight.presented, now)).1.Session?
    {
      HandledInStep(w, cfg, now);
    }
  }
}
