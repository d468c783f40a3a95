/**
 Accounts, refresh-token families and access tokens: the tables as a value, the operations on them as
 functions. The service in AuthService.dfy is proved equal to these functions.
 */
module Auth {
  import opened Base
  import opened Clock

  datatype Role = Ordinary | Admin

  /** A user row. Passwords are compared by identity: hashing is taken to be injective. */
  datatype User = User(role: Role, active: bool, password: string, mustChange: bool, changedAt: Option<Instant>)

  type TokenId = nat
  type Family = nat

  /** A refresh token row. The id stands for the opaque token itself. */
  datatype Token = Token(user: UserId, family: Family, issuedAt: Instant, expiresAt: Instant,
        revokedAt: Option<Instant>) {
    predicate Live() { revokedAt.None? }
  }

  /** `next*` are the fresh identifiers the generators will hand out. */
  datatype Tables = Tables(
    users: map<UserId, User>,
    tokens: map<TokenId, Token>,
    nextUser: UserId,
    nextToken: TokenId,
    nextFamily: Family)

  /** The claims of an access token that its acceptance depends on; `exp` is in whole seconds. */
  datatype Bearer = Bearer(user: UserId, pwdAt: int, exp: int)

  datatype Config = Config(accessMinutes: int, refreshDays: int, selfRegistration: bool)

  datatype Answer =
    | Session(bearer: Bearer, refresh: TokenId)
    | Fine
    | Denied(code: Code)

  /** Milliseconds since the epoch; zero when there is no timestamp. */
  function EpochMillis(t: Option<Instant>): int { if t.Some? then t.value / 1_000 else 0 }

  function NewBearer(u: UserId, user: User, cfg: Config, now: Instant): Bearer {
    Bearer(u, EpochMillis(user.changedAt), WholeSeconds(now + cfg.accessMinutes * 60_000_000))
  }

  /** What the authentication dependency answers to an access token. */
  function Authenticated(a: Tables, b: Bearer, now: Instant): Option<Code> {
    if Seconds(b.exp) <= now then Some(TokenExpired)
    else if b.user !in a.users then Some(TokenInvalid)
    else if !a.users[b.user].active then Some(UserDisabled)
    else if b.pwdAt != EpochMillis(a.users[b.user].changedAt) then Some(TokenInvalid)
    else None
  }

  // -------------------------------------------------------------- token table

  function RevokedIf(a: Tables, which: Token -> bool, now: Instant): Tables {
    a.(tokens := map id | id in a.tokens ::
      if which(a.tokens[id]) && a.tokens[id].Live() then a.tokens[id].(revokedAt := Some(now)) else a.tokens[id])
  }

  function OfFamily(f: Family): Token -> bool { (t: Token) => t.family == f }

  function OfUser(u: UserId): Token -> bool { (t: Token) => t.user == u }

  /** A single row; revoking again moves the timestamp. */
  function RevokedOne(a: Tables, id: TokenId, now: Instant): Tables
    requires id in a.tokens
  {
    a.(tokens := a.tokens[id := a.tokens[id].(revokedAt := Some(now))])
  }

  /** A fresh token in an existing family, or in a new one. */
  function Issued(a: Tables, u: UserId, family: Option<Family>, cfg: Config, now: Instant): (Tables, Answer)
    requires u in a.users
  {
    var f := if family.Some? then family.value else a.nextFamily;
    (a.(tokens := a.tokens[a.nextToken := Token(u, f, now, now + Days(cfg.refreshDays), None)],
        nextToken := a.nextToken + 1,
        nextFamily := if family.Some? then a.nextFamily else a.nextFamily + 1),
     Session(NewBearer(u, a.users[u], cfg, now), a.nextToken))
  }

  // --------------------------------------------------------------- operations

  datatype Step =
    | Register(taken: bool, password: string, when: Instant)
    | Login(who: Option<UserId>, password: string, when: Instant)
    | Refresh(id: TokenId, when: Instant)
    | Logout(presented: Option<TokenId>, when: Instant)
    | ChangePassword(caller: UserId, current: string, chosen: string, when: Instant)
    | CreateUser(actor: UserId, clash: bool, role: Role, password: string, when: Instant)
    | ChangeRole(actor: UserId, target: UserId, role: Role, when: Instant)
    | SetStatus(actor: UserId, target: UserId, active: bool, when: Instant)
    | ResetPassword(actor: UserId, target: UserId, temporary: string, when: Instant)
    | PurgeTokens(when: Instant)

  function NewUser(a: Tables, user: User): Tables {
    a.(users := a.users[a.nextUser := user], nextUser := a.nextUser + 1)
  }

  function Registered(a: Tables, cfg: Config, taken: bool, password: string, now: Instant): (Tables, Answer) {
    if !cfg.selfRegistration then (a, Denied(Forbidden))
    else if taken then (a, Denied(Conflict))
    else Issued(NewUser(a, User(Ordinary, true, password, false, Some(now))), a.nextUser, None, cfg, now)
  }

  function LoggedIn(a: Tables, cfg: Config, who: Option<UserId>, password: string, now: Instant): (Tables, Answer) {
    if who.None? || who.value !in a.users || a.users[who.value].password != password then
      (a, Denied(InvalidCredentials))
    else if !a.users[who.value].active then (a, Denied(UserDisabled))
    else Issued(a, who.value, None, cfg, now)
  }

  /** Rotation; a token that was already rotated away burns its whole family. */
  function Refreshed(a: Tables, cfg: Config, id: TokenId, now: Instant): (Tables, Answer) {
    if id !in a.tokens then (a, Denied(TokenInvalid)) else
    var stored := a.tokens[id];
    if !stored.Live() then (RevokedIf(a, OfFamily(stored.family), now), Denied(TokenInvalid))
    else if stored.expiresAt <= now then (RevokedOne(a, id, now), Denied(TokenExpired))
    else if stored.user !in a.users then (RevokedIf(a, OfFamily(stored.family), now), Denied(TokenInvalid))
    else if !a.users[stored.user].active then (RevokedIf(a, OfUser(stored.user), now), Denied(UserDisabled))
    else Issued(RevokedOne(a, id, now), stored.user, Some(stored.family), cfg, now)
  }

  function LoggedOut(a: Tables, presented: Option<TokenId>, now: Instant): Tables {
    if presented.Some? && presented.value in a.tokens && a.tokens[presented.value].Live()
    then RevokedOne(a, presented.value, now) else a
  }

  function WithUser(a: Tables, u: UserId, user: User): Tables { a.(users := a.users[u := user]) }

  function PasswordSet(a: Tables, u: UserId, password: string, mustChange: bool, now: Instant): Tables
    requires u in a.users
  {
    RevokedIf(WithUser(a, u, a.users[u].(password := password, mustChange := mustChange, changedAt := Some(now))),
      OfUser(u), now)
  }

  /** The caller has been authenticated: an unknown or disabled caller does not get this far. */
  function PasswordChanged(a: Tables, caller: UserId, current: string, chosen: string, now: Instant): (Tables, Answer) {
    if caller !in a.users then (a, Denied(TokenInvalid))
    else if !a.users[caller].active then (a, Denied(UserDisabled))
    else if a.users[caller].password != current then (a, Denied(InvalidCredentials))
    else (PasswordSet(a, caller, chosen, false, now), Fine)
  }

  /** The guard of every administrative operation. */
  function AdminGuard(a: Tables, actor: UserId): Option<Code> {
    if actor !in a.users then Some(TokenInvalid)
    else if !a.users[actor].active then Some(UserDisabled)
    else if !a.users[actor].role.Admin? then Some(Forbidden)
    else None
  }

  function UserCreated(a: Tables, actor: UserId, clash: bool, role: Role, password: string,
        now: Instant): (Tables, Answer) {
    if AdminGuard(a, actor).Some? then (a, Denied(AdminGuard(a, actor).value))
    else if clash then (a, Denied(Conflict))
    else (NewUser(a, User(role, true, password, true, Some(now))), Fine)
  }

  function RoleChanged(a: Tables, actor: UserId, target: UserId, role: Role, now: Instant): (Tables, Answer) {
    if AdminGuard(a, actor).Some? then (a, Denied(AdminGuard(a, actor).value))
    else if target !in a.users then (a, Denied(NotFound))
    else if a.users[target].role == role then (a, Fine)
    else if target == actor then (a, Denied(Forbidden))
    else (RevokedIf(WithUser(a, target, a.users[target].(role := role)), OfUser(target), now), Fine)
  }

  function StatusSet(a: Tables, actor: UserId, target: UserId, active: bool, now: Instant): (Tables, Answer) {
    if AdminGuard(a, actor).Some? then (a, Denied(AdminGuard(a, actor).value))
    else if target !in a.users then (a, Denied(NotFound))
    else if target == actor && !active then (a, Denied(Forbidden))
    else if a.users[target].active == active then (a, Fine)
    else
      var a' := WithUser(a, target, a.users[target].(active := active));
      (if active then a' else RevokedIf(a', OfUser(target), now), Fine)
  }

  function PasswordReset(a: Tables, actor: UserId, target: UserId, temporary: string, now: Instant): (Tables, Answer) {
    if AdminGuard(a, actor).Some? then (a, Denied(AdminGuard(a, actor).value))
    else if target !in a.users then (a, Denied(NotFound))
    else (PasswordSet(a, target, temporary, true, now), Fine)
  }

  function Purged(a: Tables, now: Instant): Tables {
    a.(tokens := map id | id in a.tokens && !(a.tokens[id].expiresAt < now) :: a.tokens[id])
  }

  function Apply(a: Tables, cfg: Config, step: Step): (Tables, Answer) {
    match step
    case Register(taken, password, now) => Registered(a, cfg, taken, password, now)
    case Login(who, password, now) => LoggedIn(a, cfg, who, password, now)
    case Refresh(id, now) => Refreshed(a, cfg, id, now)
    case Logout(presented, now) => (LoggedOut(a, presented, now), Fine)
    case ChangePassword(caller, current, chosen, now) => PasswordChanged(a, caller, current, chosen, now)
    case CreateUser(actor, clash, role, password, now) => UserCreated(a, actor, clash, role, password, now)
    case ChangeRole(actor, target, role, now) => RoleChanged(a, actor, target, role, now)
    case SetStatus(actor, target, active, now) => StatusSet(a, actor, target, active, now)
    case ResetPassword(actor, target, temporary, now) => PasswordReset(a, actor, target, temporary, now)
    case PurgeTokens(now) => (Purged(a, now), Fine)
  }

  /** The tables after a sequence of serialised operations. */
  function Run(a: Tables, cfg: Config, steps: seq<Step>): Tables {
    if steps == [] then a else Apply(Run(a, cfg, steps[..|steps| - 1]), cfg, steps[|steps| - 1]).0
  }
}
