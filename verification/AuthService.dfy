/** The authentication and user services: the step-by-step updates, proved equal to the functions of `Auth`. */
module AuthService {
  import opened Base
  import opened Clock
  import opened Auth

  /** The rows an update rewrote. */
  function ChangedRows(before: map<TokenId, Token>, after: map<TokenId, Token>): set<TokenId> {
    set id | id in before && id in after && after[id] != before[id]
  }

  class Service {
    const cfg: Config
    var users: map<UserId, User>
    var tokens: map<TokenId, Token>
    var nextUser: UserId
    var nextToken: TokenId
    var nextFamily: Family

    function State(): Tables reads this { Tables(users, tokens, nextUser, nextToken, nextFamily) }

    constructor (cfg: Config)
      ensures State() == Tables(map[], map[], 0, 0, 0) && this.cfg == cfg
    {
      this.cfg := cfg;
      users, tokens, nextUser, nextToken, nextFamily := map[], map[], 0, 0, 0;
    }

    // ------------------------------------------------------- token repository

    method Create(user: UserId, family: Family, now: Instant, expiresAt: Instant) returns (id: TokenId)
      modifies this`tokens, this`nextToken
      ensures id == old(nextToken) && nextToken == old(nextToken) + 1
      ensures tokens == old(tokens)[id := Token(user, family, now, expiresAt, None)]
    {
      id := nextToken;
      nextToken := nextToken + 1;
      tokens := tokens[id := Token(user, family, now, expiresAt, None)];
    }

    method Revoke(id: TokenId, now: Instant)
      requires id in tokens
      modifies this`tokens
      ensures State() == RevokedOne(old(State()), id, now)
    {
      var row := tokens[id];
      row := row.(revokedAt := Some(now));
      tokens := tokens[id := row];
    }

    method RevokeFamily(family: Family, now: Instant) returns (revoked: nat)
      modifies this`tokens
      ensures State() == RevokedIf(old(State()), OfFamily(family), now)
      ensures revoked == |ChangedRows(old(tokens), tokens)|
    {
      ghost var before := tokens;
      var live := set id | id in tokens && tokens[id].family == family && tokens[id].revokedAt.None?;
      revoked := |live|;
      tokens := map id | id in tokens ::
        if tokens[id].family == family && tokens[id].revokedAt.None?
          then tokens[id].(revokedAt := Some(now)) else tokens[id];
      assert ChangedRows(before, tokens) == live;
    }

    method RevokeAllForUser(user: UserId, now: Instant) returns (revoked: nat)
      modifies this`tokens
      ensures State() == RevokedIf(old(State()), OfUser(user), now)
      ensures revoked == |ChangedRows(old(tokens), tokens)|
    {
      ghost var before := tokens;
      var live := set id | id in tokens && tokens[id].user == user && tokens[id].revokedAt.None?;
      revoked := |live|;
      tokens := map id | id in tokens ::
        if tokens[id].user == user && tokens[id].revokedAt.None?
          then tokens[id].(revokedAt := Some(now)) else tokens[id];
      assert ChangedRows(before, tokens) == live;
    }

    method PurgeExpired(now: Instant) returns (deleted: nat)
      modifies this`tokens
      ensures State() == Purged(old(State()), now)
      ensures deleted == |old(tokens).Keys - tokens.Keys|
    {
      ghost var before := tokens;
      var expired := set id | id in tokens && tokens[id].expiresAt < now;
      deleted := |expired|;
      tokens := map id | id in tokens && now <= tokens[id].expiresAt :: tokens[id];
      assert before.Keys - tokens.Keys == expired;
    }

    // ----------------------------------------------------------- auth service

    method Issue(u: UserId, family: Option<Family>, now: Instant) returns (r: Answer)
      requires u in users
      modifies this`tokens, this`nextToken, this`nextFamily
      ensures (State(), r) == Issued(old(State()), u, family, cfg, now)
    {
      var bearer := NewBearer(u, users[u], cfg, now);
      var f := nextFamily;
      if family.Some? {
        f := family.value;
      } else {
        nextFamily := nextFamily + 1;
      }
      var id := Create(u, f, now, now + Days(cfg.refreshDays));
      r := Session(bearer, id);
    }

    method AddUser(user: User) returns (u: UserId)
      modifies this`users, this`nextUser
      ensures u == old(nextUser) && u in users && State() == NewUser(old(State()), user)
    {
      u := nextUser;
      users := users[u := user];
      nextUser := nextUser + 1;
    }

    method Register(taken: bool, password: string, now: Instant) returns (r: Answer)
      modifies this
      ensures (State(), r) == Registered(old(State()), cfg, taken, password, now)
    {
      if !cfg.selfRegistration { return Denied(Forbidden); }
      if taken { return Denied(Conflict); }
      var u := AddUser(User(Ordinary, true, password, false, Some(now)));
      r := Issue(u, None, now);
    }

    method Login(who: Option<UserId>, password: string, now: Instant) returns (r: Answer)
      modifies this
      ensures (State(), r) == LoggedIn(old(State()), cfg, who, password, now)
    {
      var known := who.Some? && who.value in users;
      if !known || users[who.value].password != password { return Denied(InvalidCredentials); }
      if !users[who.value].active { return Denied(UserDisabled); }
      r := Issue(who.value, None, now);
    }

    method Refresh(id: TokenId, now: Instant) returns (r: Answer)
      modifies this
      ensures (State(), r) == Refreshed(old(State()), cfg, id, now)
    {
      if id !in tokens { return Denied(TokenInvalid); }
      var stored := tokens[id];
      if stored.revokedAt.Some? {
        var _ := RevokeFamily(stored.family, now);
        return Denied(TokenInvalid);
      }
      if stored.expiresAt <= now {
        Revoke(id, now);
        return Denied(TokenExpired);
      }
      if stored.user !in users {
        var _ := RevokeFamily(stored.family, now);
        return Denied(TokenInvalid);
      }
      if !users[stored.user].active {
        var _ := RevokeAllForUser(stored.user, now);
        return Denied(UserDisabled);
      }
      Revoke(id, now);
      r := Issue(stored.user, Some(stored.family), now);
    }

    method Logout(presented: Option<TokenId>, now: Instant)
      modifies this
      ensures State() == LoggedOut(old(State()), presented, now)
    {
      if presented.Some? {
        if presented.value in tokens && tokens[presented.value].revokedAt.None? {
          Revoke(presented.value, now);
        }
      }
    }

    method SetPassword(u: UserId, password: string, mustChange: bool, now: Instant)
      requires u in users
      modifies this`users, this`tokens
      ensures State() == PasswordSet(old(State()), u, password, mustChange, now)
    {
      users := users[u := users[u].(password := password)];
      users := users[u := users[u].(changedAt := Some(now))];
      users := users[u := users[u].(mustChange := mustChange)];
      assert State() == WithUser(old(State()), u,
        old(users)[u].(password := password, mustChange := mustChange, changedAt := Some(now)));
      var _ := RevokeAllForUser(u, now);
    }

    method ChangePassword(caller: UserId, current: string, chosen: string, now: Instant) returns (r: Answer)
      modifies this
      ensures (State(), r) == PasswordChanged(old(State()), caller, current, chosen, now)
    {
      if caller !in users { return Denied(TokenInvalid); }
      if !users[caller].active { return Denied(UserDisabled); }
      if users[caller].password != current { return Denied(InvalidCredentials); }
      SetPassword(caller, chosen, false, now);
      r := Fine;
    }

    // ----------------------------------------------------------- user service

    method RequireAdmin(actor: UserId) returns (refused: Option<Code>)
      ensures refused == AdminGuard(State(), actor)
    {
      if actor !in users { return Some(TokenInvalid); }
      if !users[actor].active { return Some(UserDisabled); }
      if users[actor].role != Admin { return Some(Forbidden); }
      return None;
    }

    method CreateUser(actor: UserId, clash: bool, role: Role, password: string, now: Instant) returns (r: Answer)
      modifies this
      ensures (State(), r) == UserCreated(old(State()), actor, clash, role, password, now)
    {
      var refused := RequireAdmin(actor);
      if refused.Some? { return Denied(refused.value); }
      if clash { return Denied(Conflict); }
      var u := AddUser(User(role, true, password, true, Some(now)));
      r := Fine;
    }

    method ChangeRole(actor: UserId, target: UserId, role: Role, now: Instant) returns (r: Answer)
      modifies this
      ensures (State(), r) == RoleChanged(old(State()), actor, target, role, now)
    {
      var refused := RequireAdmin(actor);
      if refused.Some? { return Denied(refused.value); }
      if target !in users { return Denied(NotFound); }
      if users[target].role != role {
        if target == actor { return Denied(Forbidden); }
        users := users[target := users[target].(role := role)];
        var _ := RevokeAllForUser(target, now);
      }
      r := Fine;
    }

    method SetStatus(actor: UserId, target: UserId, active: bool, now: Instant) returns (r: Answer)
      modifies this
      ensures (State(), r) == StatusSet(old(State()), actor, target, active, now)
    {
      var refused := RequireAdmin(actor);
      if refused.Some? { return Denied(refused.value); }
      if target !in users { return Denied(NotFound); }
      if target == actor && !active { return Denied(Forbidden); }
      if users[target].active == active { return Fine; }
      users := users[target := users[target].(active := active)];
      if !active { var _ := RevokeAllForUser(target, now); }
      r := Fine;
    }

    method ResetPassword(actor: UserId, target: UserId, temporary: string, now: Instant) returns (r: Answer)
      modifies this
      ensures (State(), r) == PasswordReset(old(State()), actor, target, temporary, now)
    {
      var refused := RequireAdmin(actor);
      if refused.Some? { return Denied(refused.value); }
      if target !in users { return Denied(NotFound); }
      SetPassword(target, temporary, true, now);
      r := Fine;
    }

    /** The authentication dependency in front of every protected endpoint. */
    method CurrentUser(b: Bearer, now: Instant) returns (refused: Option<Code>)
      ensures refused == Authenticated(State(), b, now)
    {
      if Seconds(b.exp) <= now { return Some(TokenExpired); }
      if b.user !in users { return Some(TokenInvalid); }
      if !users[b.user].active { return Some(UserDisabled); }
      if b.pwdAt != EpochMillis(users[b.user].changedAt) { return Some(TokenInvalid); }
      return None;
    }
  }
}
