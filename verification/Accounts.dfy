/**
 What each account operation answers, to whom, and what it changes: the success condition and the code of every
 refusal, the rows it rewrites and no others, and who can change what about a user over whole runs.
 */
module Accounts {
  import opened Base
  import opened Clock
  import opened Auth
  import opened Credentials

  // ------------------------------------------------------------ effects

  /** `b` is `a` with exactly the tokens in `hit` stamped as revoked. */
  ghost predicate TokensRevoked(a: Tables, b: Tables, hit: set<TokenId>, now: Instant) {
    && b.tokens.Keys == a.tokens.Keys
    && b.nextToken == a.nextToken && b.nextFamily == a.nextFamily
    && forall id :: id in a.tokens ==>
         b.tokens[id] == if id in hit then a.tokens[id].(revokedAt := Some(now)) else a.tokens[id]
  }

  function LiveOfUser(a: Tables, u: UserId): set<TokenId> {
    set id | id in a.tokens && a.tokens[id].user == u && a.tokens[id].revokedAt.None?
  }

  function LiveOfFamily(a: Tables, f: Family): set<TokenId> {
    set id | id in a.tokens && a.tokens[id].family == f && a.tokens[id].revokedAt.None?
  }

  /** `b` adds to the tokens of `a` the one that `r` hands to `u`, and `r` names `u` and its password time. */
  ghost predicate HandsOut(a: Tables, b: Tables, cfg: Config, r: Answer, u: UserId, f: Family, now: Instant) {
    && r.Session? && r.refresh == a.nextToken && b.nextToken == a.nextToken + 1
    && b.tokens == a.tokens[a.nextToken := Token(u, f, now, now + Days(cfg.refreshDays), None)]
    && u in b.users && r.bearer.user == u && r.bearer.pwdAt == EpochMillis(b.users[u].changedAt)
  }

  // ------------------------------------------------- signing up, in and out

  /** A login succeeds exactly for an enabled user's own password, and starts a family; a refusal changes nothing. */
  lemma LoginExactly(a: Tables, cfg: Config, who: Option<UserId>, password: string, now: Instant)
    ensures var (b, r) := Apply(a, cfg, Login(who, password, now));
      var proven := who.Some? && who.value in a.users && a.users[who.value].password == password;
      && (r.Session? <==> proven && a.users[who.value].active)
      && (r == Denied(InvalidCredentials) <==> !proven)
      && (r == Denied(UserDisabled) <==> proven && !a.users[who.value].active)
      && (!r.Session? ==> b == a)
      && (r.Session? ==> HandsOut(a, b, cfg, r, who.value, a.nextFamily, now))
      && b.users == a.users && b.nextUser == a.nextUser
      && b.nextFamily == (if r.Session? then a.nextFamily + 1 else a.nextFamily)
  {
  }

  /** Anybody may sign up while that is allowed and the identifiers are free, and becomes an ordinary enabled user. */
  lemma RegisterExactly(a: Tables, cfg: Config, taken: bool, password: string, now: Instant)
    ensures var (b, r) := Apply(a, cfg, Register(taken, password, now));
      && (r.Session? <==> cfg.selfRegistration && !taken)
      && (r == Denied(Forbidden) <==> !cfg.selfRegistration)
      && (r == Denied(Conflict) <==> cfg.selfRegistration && taken)
      && (!r.Session? ==> b == a)
      && (r.Session? ==>
            && b.users == a.users[a.nextUser := User(Ordinary, true, password, false, Some(now))]
            && b.nextUser == a.nextUser + 1 && b.nextFamily == a.nextFamily + 1
            && HandsOut(a, b, cfg, r, a.nextUser, a.nextFamily, now))
  {
  }

  /** Signing out revokes the presented token if it is live, and nothing else. */
  lemma LogoutExactly(a: Tables, cfg: Config, presented: Option<TokenId>, now: Instant)
    ensures var (b, r) := Apply(a, cfg, Logout(presented, now));
      var hit := set id | id in a.tokens && Some(id) == presented && a.tokens[id].revokedAt.None?;
      r.Fine? && b.users == a.users && b.nextUser == a.nextUser && TokensRevoked(a, b, hit, now)
  {
  }

  /** What a refused refresh answers, and which tokens it takes with it. */
  lemma RefusedRefreshExactly(a: Tables, cfg: Config, id: TokenId, now: Instant)
    requires !Apply(a, cfg, Refresh(id, now)).1.Session?
    ensures var (b, r) := Apply(a, cfg, Refresh(id, now));
      && b.users == a.users && b.nextUser == a.nextUser
      && if id !in a.tokens then r == Denied(TokenInvalid) && b == a
         else if a.tokens[id].revokedAt.Some? then
           r == Denied(TokenInvalid) && TokensRevoked(a, b, LiveOfFamily(a, a.tokens[id].family), now)
         else if a.tokens[id].expiresAt <= now then
           r == Denied(TokenExpired) && TokensRevoked(a, b, {id}, now)
         else if a.tokens[id].user !in a.users then
           r == Denied(TokenInvalid) && TokensRevoked(a, b, LiveOfFamily(a, a.tokens[id].family), now)
         else
           r == Denied(UserDisabled) && TokensRevoked(a, b, LiveOfUser(a, a.tokens[id].user), now)
  {
  }

  /** A successful refresh replaces the presented token and touches no other row and no user. */
  lemma RefreshReplaces(a: Tables, cfg: Config, id: TokenId, now: Instant)
    requires Apply(a, cfg, Refresh(id, now)).1.Session? && id in a.tokens && id < a.nextToken
    ensures var (b, r) := Apply(a, cfg, Refresh(id, now));
      var spent := a.(tokens := a.tokens[id := a.tokens[id].(revokedAt := Some(now))]);
      && HandsOut(spent, b, cfg, r, a.tokens[id].user, a.tokens[id].family, now)
      && b.users == a.users && b.nextUser == a.nextUser && b.nextFamily == a.nextFamily
  {
  }

  /** The sweep deletes exactly the rows past their expiry. */
  lemma PurgeExactly(a: Tables, cfg: Config, now: Instant)
    ensures var (b, r) := Apply(a, cfg, PurgeTokens(now));
      && r.Fine? && b == a.(tokens := b.tokens)
      && (forall id :: id in b.tokens <==> id in a.tokens && now <= a.tokens[id].expiresAt)
      && (forall id :: id in b.tokens ==> b.tokens[id] == a.tokens[id])
  {
  }

  // ------------------------------------------------------------- passwords

  /** Changing one's password takes the current one, stores the new one and ends every session of that user. */
  lemma ChangePasswordExactly(a: Tables, cfg: Config, caller: UserId, current: string, chosen: string, now: Instant)
    ensures var (b, r) := Apply(a, cfg, ChangePassword(caller, current, chosen, now));
      && (r.Fine? <==> caller in a.users && a.users[caller].active && a.users[caller].password == current)
      && (r == Denied(TokenInvalid) <==> caller !in a.users)
      && (r == Denied(UserDisabled) <==> caller in a.users && !a.users[caller].active)
      && (r == Denied(InvalidCredentials) <==>
            caller in a.users && a.users[caller].active && a.users[caller].password != current)
      && (!r.Fine? ==> b == a)
      && (r.Fine? ==>
            var row := a.users[caller].(password := chosen, mustChange := false, changedAt := Some(now));
            b.users == a.users[caller := row] && b.nextUser == a.nextUser
            && TokensRevoked(a, b, LiveOfUser(a, caller), now))
  {
  }

  // -------------------------------------------------------- administration

  predicate Administers(a: Tables, u: UserId) { u in a.users && a.users[u].role == Admin && a.users[u].active }

  predicate IsAdministrative(step: Step) {
    step.CreateUser? || step.ChangeRole? || step.SetStatus? || step.ResetPassword?
  }

  /** Administrative operations take an enabled administrator; anybody else is refused and changes nothing. */
  lemma OnlyAdministrators(a: Tables, cfg: Config, step: Step)
    requires IsAdministrative(step)
    ensures var (b, r) := Apply(a, cfg, step);
      && (r.Fine? ==> step.actor in a.users && a.users[step.actor].active && a.users[step.actor].role == Admin)
      && !r.Session?
      && (!r.Fine? ==> b == a)
      && (step.actor !in a.users ==> r == Denied(TokenInvalid))
      && (step.actor in a.users && !a.users[step.actor].active ==> r == Denied(UserDisabled))
      && (step.actor in a.users && a.users[step.actor].active && a.users[step.actor].role == Ordinary ==>
            r == Denied(Forbidden))
  {
  }

  lemma CreateUserExactly(a: Tables, cfg: Config, actor: UserId, clash: bool, role: Role, password: string,
        now: Instant)
    requires Administers(a, actor)
    ensures var (b, r) := Apply(a, cfg, CreateUser(actor, clash, role, password, now));
      if clash then r == Denied(Conflict) && b == a
      else
        && r.Fine? && b.nextUser == a.nextUser + 1
        && b == a.(users := a.users[a.nextUser := User(role, true, password, true, Some(now))], nextUser := b.nextUser)
  {
  }

  /** An administrator sets anybody's role but their own; a new role ends the user's sessions. */
  lemma ChangeRoleExactly(a: Tables, cfg: Config, actor: UserId, target: UserId, role: Role, now: Instant)
    requires Administers(a, actor)
    ensures var (b, r) := Apply(a, cfg, ChangeRole(actor, target, role, now));
      if target !in a.users then r == Denied(NotFound) && b == a
      else if a.users[target].role == role then r.Fine? && b == a
      else if target == actor then r == Denied(Forbidden) && b == a
      else
        && r.Fine? && b.users == a.users[target := a.users[target].(role := role)] && b.nextUser == a.nextUser
        && TokensRevoked(a, b, LiveOfUser(a, target), now)
  {
  }

  /**
   An administrator enables and disables anybody but cannot disable themselves; disabling ends the user's sessions.
   */
  lemma SetStatusExactly(a: Tables, cfg: Config, actor: UserId, target: UserId, active: bool, now: Instant)
    requires Administers(a, actor)
    ensures var (b, r) := Apply(a, cfg, SetStatus(actor, target, active, now));
      if target !in a.users then r == Denied(NotFound) && b == a
      else if target == actor && !active then r == Denied(Forbidden) && b == a
      else if a.users[target].active == active then r.Fine? && b == a
      else
        && r.Fine? && b.users == a.users[target := a.users[target].(active := active)] && b.nextUser == a.nextUser
        && TokensRevoked(a, b, if active then {} else LiveOfUser(a, target), now)
  {
  }

  /** A reset stores the temporary password, asks for another one and ends the user's sessions. */
  lemma ResetPasswordExactly(a: Tables, cfg: Config, actor: UserId, target: UserId, temporary: string, now: Instant)
    requires Administers(a, actor)
    ensures var (b, r) := Apply(a, cfg, ResetPassword(actor, target, temporary, now));
      if target !in a.users then r == Denied(NotFound) && b == a
      else
        var row := a.users[target].(password := temporary, mustChange := true, changedAt := Some(now));
        && r.Fine? && b.users == a.users[target := row] && b.nextUser == a.nextUser
        && TokensRevoked(a, b, LiveOfUser(a, target), now)
  {
  }

  // ------------------------------------------------------------ access tokens

  /** What each access token is answered, in the order the checks are made. */
  lemma AccessAnswers(a: Tables, b: Bearer, now: Instant)
    ensures var r := Authenticated(a, b, now);
      if Seconds(b.exp) <= now then r == Some(TokenExpired)
      else if b.user !in a.users then r == Some(TokenInvalid)
      else if !a.users[b.user].active then r == Some(UserDisabled)
      else r == if b.pwdAt == EpochMillis(a.users[b.user].changedAt) then None else Some(TokenInvalid)
  {
  }

  /** The stamp in an access token is a whole number of milliseconds, none when there is no password time. */
  lemma StampsAreMilliseconds(t: Instant)
    ensures EpochMillis(None) == 0
    ensures 1_000 * EpochMillis(Some(Seconds(1) * t)) == Seconds(1) * t
    ensures 0 <= t ==> 1_000 * EpochMillis(Some(t)) <= t < 1_000 * (EpochMillis(Some(t)) + 1)
  {
  }

  // ------------------------------------------------------------ over runs

  /**
   The step is one that may set the password of `u` to `chosen`: their own with the current one, or an administrator's.
   */
  predicate MaySetPassword(a: Tables, step: Step, u: UserId, chosen: string) {
    && u in a.users
    && match step
       case ChangePassword(caller, current, next, _) =>
         caller == u && a.users[u].active && current == a.users[u].password && next == chosen
       case ResetPassword(actor, target, temporary, _) => target == u && Administers(a, actor) && temporary == chosen
       case _ => false
  }

  /** What one step may change about a user, and who has to ask for it. */
  lemma WhoChangesWhat(a: Tables, cfg: Config, step: Step, u: UserId)
    requires UsersNumbered(a) && u in a.users
    ensures u in Apply(a, cfg, step).0.users
    ensures var before, after := a.users[u], Apply(a, cfg, step).0.users[u];
      && (after.password != before.password ==> MaySetPassword(a, step, u, after.password))
      && (after.role != before.role ==>
            step.ChangeRole? && step.target == u && step.actor != u && Administers(a, step.actor) &&
              step.role == after.role)
      && (after.active != before.active ==>
            step.SetStatus? && step.target == u && Administers(a, step.actor) && step.active == after.active)
      && (after.active != before.active && !after.active ==> step.actor != u)
      && (after.mustChange != before.mustChange || after.changedAt != before.changedAt ==>
            MaySetPassword(a, step, u, after.password) && after.changedAt == Some(step.when)
            && (after.mustChange <==> step.ResetPassword?))
  {
  }

  /** Whenever somebody may set a password, the step sets it. */
  lemma RightfulChangeHappens(a: Tables, cfg: Config, step: Step, u: UserId, chosen: string)
    requires MaySetPassword(a, step, u, chosen)
    ensures ChangesPassword(a, cfg, step, u)
    ensures u in Apply(a, cfg, step).0.users && Apply(a, cfg, step).0.users[u].password == chosen
  {
  }

  /** ... and no other step changes it. */
  lemma OnlyRightfulChanges(a: Tables, cfg: Config, step: Step, u: UserId)
    requires UsersNumbered(a) && u in a.users && forall chosen :: !MaySetPassword(a, step, u, chosen)
    ensures u in Apply(a, cfg, step).0.users && Apply(a, cfg, step).0.users[u].password == a.users[u].password
  {
    WhoChangesWhat(a, cfg, step, u);
  }

  /** The password last set on the run by somebody who may, or the one there was. */
  ghost function PasswordAfter(a: Tables, cfg: Config, steps: seq<Step>, u: UserId): string
    requires u in a.users
  {
    if steps == [] then a.users[u].password else
    var n := |steps| - 1;
    if exists chosen :: MaySetPassword(Run(a, cfg, steps[..n]), steps[n], u, chosen)
    then Chosen(steps[n])
    else PasswordAfter(a, cfg, steps[..n], u)
  }

  function Chosen(step: Step): string {
    match step
    case ChangePassword(_, _, chosen, _) => chosen
    case ResetPassword(_, _, temporary, _) => temporary
    case _ => ""
  }

  lemma {:induction false} PasswordOverRuns(a: Tables, cfg: Config, steps: seq<Step>, u: UserId)
    requires UsersNumbered(a) && u in a.users
    ensures UsersNumbered(Run(a, cfg, steps)) && u in Run(a, cfg, steps).users
    ensures Run(a, cfg, steps).users[u].password == PasswordAfter(a, cfg, steps, u)
  {
    hide Apply, UsersNumbered, ChangesPassword;
    if steps != [] {
      var n := |steps| - 1;
      var before := Run(a, cfg, steps[..n]);
      PasswordOverRuns(a, cfg, steps[..n], u);
      NumberedStays(before, cfg, steps[n]);
      if exists chosen :: MaySetPassword(before, steps[n], u, chosen) {
        var chosen :| MaySetPassword(before, steps[n], u, chosen);
        RightfulChangeHappens(before, cfg, steps[n], u, chosen);
      } else {
        OnlyRightfulChanges(before, cfg, steps[n], u);
      }
    }
  }

  /**
   Over any run exactly one password signs a user in, while the user is enabled: the one last set by the user with
   the then current password, or by a reset whose actor was an enabled administrator at that moment.
   */
  lemma {:induction false} SignsInExactly(a: Tables, cfg: Config, steps: seq<Step>, u: UserId, password: string,
        now: Instant)
    requires UsersNumbered(a) && u in a.users
    ensures u in Run(a, cfg, steps).users
    ensures Apply(Run(a, cfg, steps), cfg, Login(Some(u), password, now)).1.Session? <==>
      password == PasswordAfter(a, cfg, steps, u) && Run(a, cfg, steps).users[u].active
  {
    hide *;
    PasswordOverRuns(a, cfg, steps, u);
    LoginExactly(Run(a, cfg, steps), cfg, Some(u), password, now);
  }

  /** Whoever's password differs after a run, somebody who may set it did. */
  lemma {:induction false} ChangedOnlyRightfully(a: Tables, cfg: Config, steps: seq<Step>, u: UserId)
    requires UsersNumbered(a) && u in a.users
    ensures u in Run(a, cfg, steps).users
    ensures Run(a, cfg, steps).users[u].password != a.users[u].password ==>
      exists i: nat ::
        i < |steps| && MaySetPassword(Run(a, cfg, steps[..i]), steps[i], u, Run(a, cfg, steps).users[u].password)
  {
    hide Apply, UsersNumbered, MaySetPassword;
    if steps != [] {
      var n := |steps| - 1;
      var before, after := Run(a, cfg, steps[..n]), Run(a, cfg, steps);
      PasswordOverRuns(a, cfg, steps, u);
      PasswordOverRuns(a, cfg, steps[..n], u);
      ChangedOnlyRightfully(a, cfg, steps[..n], u);
      WhoChangesWhat(before, cfg, steps[n], u);
      if after.users[u].password == before.users[u].password && before.users[u].password != a.users[u].password {
        var i: nat :| i < n && MaySetPassword(Run(a, cfg, steps[..n][..i]), steps[..n][i], u, before.users[u].password);
        assert steps[..n][..i] == steps[..i];
      }
    }
  }

  /** After a change or reset, and until the next one, exactly the password then set signs an enabled user in. */
  lemma {:induction false} NewPasswordSignsIn(a: Tables, cfg: Config, step: Step, u: UserId, chosen: string,
        later: seq<Step>, password: string, now: Instant)
    requires UsersNumbered(a) && MaySetPassword(a, step, u, chosen)
    requires PasswordKept(Apply(a, cfg, step).0, cfg, later, u)
    ensures var end := Run(Apply(a, cfg, step).0, cfg, later);
      && u in end.users
      && (Apply(end, cfg, Login(Some(u), password, now)).1.Session? <==> password == chosen && end.users[u].active)
  {
    RightfulChangeHappens(a, cfg, step, u, chosen);
    NumberedStays(a, cfg, step);
    hide Apply, UsersNumbered, Run, MaySetPassword;
    var start := Apply(a, cfg, step).0;
    PasswordStays(start, cfg, later, u);
    SignsInExactly(start, cfg, later, u, password, now);
  }

  lemma {:induction false} PasswordStays(a: Tables, cfg: Config, steps: seq<Step>, u: UserId)
    requires u in a.users && PasswordKept(a, cfg, steps, u)
    ensures PasswordAfter(a, cfg, steps, u) == a.users[u].password
  {
    hide ChangesPassword, Run;
    if steps != [] {
      var n := |steps| - 1;
      assert forall i :: 0 <= i < n ==> steps[..n][..i] == steps[..i];
      PasswordStays(a, cfg, steps[..n], u);
      if chosen :| MaySetPassword(Run(a, cfg, steps[..n]), steps[n], u, chosen) {
        RightfulChangeHappens(Run(a, cfg, steps[..n]), cfg, steps[n], u, chosen);
      }
    }
  }
}
