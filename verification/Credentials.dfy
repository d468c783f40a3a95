/** What a password change, a disablement or a role change does to credentials issued before it, for ever after. */
module Credentials {
  import opened Base
  import opened Clock
  import opened Auth

  ghost predicate Monotone(steps: seq<Step>, from: Instant) {
    && (forall i :: 0 <= i < |steps| ==> from <= steps[i].when)
    && (forall i, j :: 0 <= i < j < |steps| ==> steps[i].when <= steps[j].when)
  }

  // ------------------------------------------------------------ refresh tokens

  /** An id that was handed out and whose row, if it still exists, is revoked. */
  predicate Spent(a: Tables, id: TokenId) { id < a.nextToken && (id in a.tokens ==> !a.tokens[id].Live()) }

  lemma SpentStays(a: Tables, cfg: Config, step: Step, id: TokenId)
    requires Spent(a, id)
    ensures Spent(Apply(a, cfg, step).0, id)
  {
  }

  lemma {:induction false} SpentForEver(a: Tables, cfg: Config, steps: seq<Step>, id: TokenId)
    requires Spent(a, id)
    ensures Spent(Run(a, cfg, steps), id)
  {
    hide Spent, Apply;
    if steps != [] {
      var n := |steps| - 1;
      SpentForEver(a, cfg, steps[..n], id);
      SpentStays(Run(a, cfg, steps[..n]), cfg, steps[n], id);
    }
  }

  /** The operations that sign a user out everywhere, when they take effect. */
  predicate SignsOut(a: Tables, cfg: Config, step: Step, u: UserId) {
    && Apply(a, cfg, step).1.Fine?
    && u in a.users
    && match step
       case ChangePassword(caller, _, _, _) => caller == u
       case ResetPassword(_, target, _, _) => target == u
       case SetStatus(_, target, active, _) => target == u && !active && a.users[u].active
       case ChangeRole(_, target, role, _) => target == u && role != a.users[u].role
       case _ => false
  }

  lemma SigningOutSpends(a: Tables, cfg: Config, step: Step, u: UserId, id: TokenId)
    requires SignsOut(a, cfg, step, u) && id < a.nextToken && (id in a.tokens ==> a.tokens[id].user == u)
    ensures Spent(Apply(a, cfg, step).0, id)
  {
  }

  /**
   After a password change, a reset, a disablement or a role change, no refresh token the user was issued
   earlier ever yields a session again, on any later run.
   */
  lemma {:induction false} EarlierRefreshTokensDead(a: Tables, cfg: Config, step: Step, u: UserId, id: TokenId,
        later: seq<Step>, when: Instant)
    requires SignsOut(a, cfg, step, u) && id < a.nextToken && (id in a.tokens ==> a.tokens[id].user == u)
    ensures Apply(Run(Apply(a, cfg, step).0, cfg, later), cfg, Refresh(id, when)).1 == Denied(TokenInvalid)
  {
    SigningOutSpends(a, cfg, step, u, id);
    SpentForEver(Apply(a, cfg, step).0, cfg, later, id);
    hide SignsOut, Run;
  }

  // ------------------------------------------------------------- access tokens

  /** Password timestamps lie in the past. */
  ghost predicate ChangesPast(a: Tables, clock: Instant) {
    && 0 <= clock
    && forall u :: u in a.users && a.users[u].changedAt.Some? ==> 0 <= a.users[u].changedAt.value <= clock
  }

  lemma ChangesPastStep(a: Tables, cfg: Config, step: Step, clock: Instant)
    requires ChangesPast(a, clock) && clock <= step.when
    ensures ChangesPast(Apply(a, cfg, step).0, step.when)
  {
  }

  lemma BearerNotFromFuture(a: Tables, cfg: Config, step: Step, clock: Instant)
    requires ChangesPast(a, clock) && clock <= step.when
    ensures var r := Apply(a, cfg, step).1; r.Session? ==> r.bearer.pwdAt <= EpochMillis(Some(step.when))
  {
    hide RevokedIf, PasswordSet;
  }

  /** On a timely run every access token names a password time that is not in the future. */
  lemma {:induction false} BearersNotFromFuture(cfg: Config, steps: seq<Step>, clock: Instant)
    requires Monotone(steps, 0) && 0 <= clock && (steps != [] ==> steps[|steps| - 1].when <= clock)
    ensures ChangesPast(Run(Tables(map[], map[], 0, 0, 0), cfg, steps), clock)
    ensures forall i :: 0 <= i < |steps| ==>
      var r := Apply(Run(Tables(map[], map[], 0, 0, 0), cfg, steps[..i]), cfg, steps[i]).1;
      r.Session? ==> r.bearer.pwdAt <= EpochMillis(Some(steps[i].when)) <= EpochMillis(Some(clock))
  {
    var start := Tables(map[], map[], 0, 0, 0);
    hide Apply, EpochMillis;
    if steps != [] {
      var n := |steps| - 1;
      BearersNotFromFuture(cfg, steps[..n], steps[n].when);
      hide ChangesPast;
      var at := Run(start, cfg, steps[..n]);
      ChangesPastStep(at, cfg, steps[n], steps[n].when);
      BearerNotFromFuture(at, cfg, steps[n], steps[n].when);
      ChangesPastLater(Apply(at, cfg, steps[n]).0, steps[n].when, clock);
      MillisMonotone(steps[n].when, clock);
      hide Run;
      forall i | 0 <= i < |steps|
        ensures var r := Apply(Run(start, cfg, steps[..i]), cfg, steps[i]).1;
          r.Session? ==> r.bearer.pwdAt <= EpochMillis(Some(steps[i].when)) <= EpochMillis(Some(clock))
      {
        if i < n { assert steps[..n][..i] == steps[..i] && steps[..n][i] == steps[i]; }
      }
    }
  }

  lemma ChangesPastLater(a: Tables, clock: Instant, later: Instant)
    requires ChangesPast(a, clock) && clock <= later
    ensures ChangesPast(a, later)
  {
  }

  lemma MillisMonotone(t: Instant, u: Instant)
    requires t <= u
    ensures EpochMillis(Some(t)) <= EpochMillis(Some(u))
  {
  }

  predicate ChangesPassword(a: Tables, cfg: Config, step: Step, u: UserId) {
    Apply(a, cfg, step).1.Fine? &&
      ((step.ChangePassword? && step.caller == u) || (step.ResetPassword? && step.target == u))
  }

  /**
   The change stores the new password, asks for another one only after a reset, and stamps the user with its own time.
   */
  lemma ChangeStamps(a: Tables, cfg: Config, step: Step, u: UserId)
    requires ChangesPassword(a, cfg, step, u)
    ensures var a' := Apply(a, cfg, step).0;
      u in a.users && u in a'.users && a'.users[u].changedAt == Some(step.when)
      && a'.users[u].active == a.users[u].active && a'.nextUser == a.nextUser
      && a'.users[u].password == (if step.ChangePassword? then step.chosen else step.temporary)
      && (a'.users[u].mustChange <==> step.ResetPassword?)
  {
  }

  lemma NumberedStays(a: Tables, cfg: Config, step: Step)
    requires UsersNumbered(a)
    ensures UsersNumbered(Apply(a, cfg, step).0)
  {
  }

  lemma {:induction false} NumberedOnRuns(cfg: Config, steps: seq<Step>)
    ensures UsersNumbered(Run(Tables(map[], map[], 0, 0, 0), cfg, steps))
  {
    hide UsersNumbered, Apply;
    if steps == [] {
      NobodyNumbered();
    } else {
      var n := |steps| - 1;
      NumberedOnRuns(cfg, steps[..n]);
      NumberedStays(Run(Tables(map[], map[], 0, 0, 0), cfg, steps[..n]), cfg, steps[n]);
    }
  }

  lemma NobodyNumbered()
    ensures UsersNumbered(Tables(map[], map[], 0, 0, 0))
  {
  }

  /** Immediately after the change, an access token that was good survives exactly if it names the same millisecond. */
  lemma SurvivesOnlySameMillisecond(a: Tables, cfg: Config, step: Step, b: Bearer, when: Instant)
    requires ChangesPassword(a, cfg, step, b.user) && Authenticated(a, b, when).None?
    ensures Authenticated(Apply(a, cfg, step).0, b, when).None? <==> EpochMillis(Some(step.when)) == b.pwdAt
  {
    ChangeStamps(a, cfg, step, b.user);
    hide ChangesPassword;
  }

  /**
   The same-millisecond case is reachable: a user who registers and changes the password within one millisecond,
   whichever it is, keeps the access token handed out at registration.
   */
  lemma SameMillisecondTokenSurvives(cfg: Config, password: string, chosen: string, joined: Instant, changed: Instant)
    returns (before: Tables, b: Bearer)
    requires cfg.selfRegistration && 1 <= cfg.accessMinutes
    requires 0 <= joined <= changed && EpochMillis(Some(joined)) == EpochMillis(Some(changed))
    ensures before == Run(Tables(map[], map[], 0, 0, 0), cfg, [Register(false, password, joined)])
    ensures Apply(Tables(map[], map[], 0, 0, 0), cfg, Register(false, password, joined)).1 == Session(b, 0)
    ensures ChangesPassword(before, cfg, ChangePassword(b.user, password, chosen, changed), b.user)
    ensures Authenticated(Apply(before, cfg, ChangePassword(b.user, password, chosen, changed)).0, b, changed).None?
  {
    var start, first := Tables(map[], map[], 0, 0, 0), Register(false, password, joined);
    assert [first][..0] == [];
    assert Run(start, cfg, []) == start;
    before := Apply(start, cfg, first).0;
    b := Apply(start, cfg, first).1.bearer;
    assert before.users[0].changedAt == Some(joined) && b.pwdAt == EpochMillis(Some(joined));
  }

  // ------------------------------------------------- access tokens over runs

  /** When the password of `u` was last changed on the run, if it was. */
  ghost function LastChange(a: Tables, cfg: Config, steps: seq<Step>, u: UserId): Option<Instant> {
    if steps == [] then None else
    var n := |steps| - 1;
    if ChangesPassword(Run(a, cfg, steps[..n]), cfg, steps[n], u) then Some(steps[n].when)
    else LastChange(a, cfg, steps[..n], u)
  }

  lemma StampKept(a: Tables, cfg: Config, step: Step, u: UserId)
    requires UsersNumbered(a) && u in a.users && !ChangesPassword(a, cfg, step, u)
    ensures u in Apply(a, cfg, step).0.users && Apply(a, cfg, step).0.users[u].changedAt == a.users[u].changedAt
  {
  }

  /** The stored password time is that of the last change, or the one there was before the run. */
  lemma {:induction false} StampIsLastChange(a: Tables, cfg: Config, steps: seq<Step>, u: UserId)
    requires UsersNumbered(a) && u in a.users
    ensures UsersNumbered(Run(a, cfg, steps)) && u in Run(a, cfg, steps).users
    ensures var last := LastChange(a, cfg, steps, u);
      Run(a, cfg, steps).users[u].changedAt == if last.Some? then last else a.users[u].changedAt
  {
    hide UsersNumbered, Apply, ChangesPassword;
    if steps != [] {
      var n := |steps| - 1;
      var before := Run(a, cfg, steps[..n]);
      StampIsLastChange(a, cfg, steps[..n], u);
      NumberedStays(before, cfg, steps[n]);
      if ChangesPassword(before, cfg, steps[n], u) {
        ChangeStamps(before, cfg, steps[n], u);
      } else {
        StampKept(before, cfg, steps[n], u);
      }
    }
  }

  /**
   What becomes of a good access token over any run, whatever changes, disablements, role changes, logouts, reuse or
   purges it holds and whatever its clock does: it is accepted exactly while it has not expired, its user is enabled,
   and the last change of the user's password, if any, fell in the millisecond the token names.
   */
  lemma {:induction false} AcceptedExactly(a: Tables, cfg: Config, steps: seq<Step>, b: Bearer, now: Instant,
        when: Instant)
    requires UsersNumbered(a) && Authenticated(a, b, now).None?
    ensures b.user in Run(a, cfg, steps).users
    ensures var last := LastChange(a, cfg, steps, b.user);
      Authenticated(Run(a, cfg, steps), b, when).None? <==>
        && when < Seconds(b.exp) && Run(a, cfg, steps).users[b.user].active
        && (last.Some? ==> EpochMillis(last) == b.pwdAt)
  {
    hide Apply, UsersNumbered, Run, LastChange;
    StampIsLastChange(a, cfg, steps, b.user);
  }

  /** No step of the run takes effect as a password change of `u`. */
  ghost predicate PasswordKept(a: Tables, cfg: Config, steps: seq<Step>, u: UserId) {
    forall i :: 0 <= i < |steps| ==> !ChangesPassword(Run(a, cfg, steps[..i]), cfg, steps[i], u)
  }

  /** None that does falls in this millisecond. */
  ghost predicate NoChangeAt(a: Tables, cfg: Config, steps: seq<Step>, u: UserId, millis: int) {
    forall i :: 0 <= i < |steps| && ChangesPassword(Run(a, cfg, steps[..i]), cfg, steps[i], u) ==>
      EpochMillis(Some(steps[i].when)) != millis
  }

  lemma {:induction false} LastChangeMeans(a: Tables, cfg: Config, steps: seq<Step>, u: UserId, millis: int)
    ensures PasswordKept(a, cfg, steps, u) ==> LastChange(a, cfg, steps, u).None?
    ensures NoChangeAt(a, cfg, steps, u, millis) && LastChange(a, cfg, steps, u).Some? ==>
      EpochMillis(LastChange(a, cfg, steps, u)) != millis
  {
    hide ChangesPassword, Run;
    if steps != [] {
      var n := |steps| - 1;
      LastChangeMeans(a, cfg, steps[..n], u, millis);
      assert forall i :: 0 <= i < n ==> steps[..n][..i] == steps[..i];
    }
  }

  /**
   Nothing but a password change costs a user a good access token; without one, it is refused only while disabled or
   expired.
   */
  lemma {:induction false} RefusedOnlyWhileDisabled(a: Tables, cfg: Config, steps: seq<Step>, b: Bearer, now: Instant,
        when: Instant)
    requires UsersNumbered(a) && Authenticated(a, b, now).None? && PasswordKept(a, cfg, steps, b.user)
    ensures b.user in Run(a, cfg, steps).users
    ensures Authenticated(Run(a, cfg, steps), b, when).None? <==>
      when < Seconds(b.exp) && Run(a, cfg, steps).users[b.user].active
    ensures when < Seconds(b.exp) && !Run(a, cfg, steps).users[b.user].active ==>
      Authenticated(Run(a, cfg, steps), b, when) == Some(UserDisabled)
  {
    hide Apply, PasswordKept, UsersNumbered, Run, LastChange;
    AcceptedExactly(a, cfg, steps, b, now, when);
    LastChangeMeans(a, cfg, steps, b.user, b.pwdAt);
  }

  /**
   After a password change at a millisecond other than the one an access token names, that token is never accepted
   again on any later run that does not change the password in that very millisecond. No clock order is assumed.
   */
  lemma {:induction false} EarlierBearersDead(a: Tables, cfg: Config, step: Step, b: Bearer, later: seq<Step>,
        when: Instant)
    requires UsersNumbered(a) && ChangesPassword(a, cfg, step, b.user) && b.pwdAt != EpochMillis(Some(step.when))
    requires NoChangeAt(Apply(a, cfg, step).0, cfg, later, b.user, b.pwdAt)
    ensures Authenticated(Run(Apply(a, cfg, step).0, cfg, later), b, when).Some?
  {
    ChangeStamps(a, cfg, step, b.user);
    NumberedStays(a, cfg, step);
    hide Run, ChangesPassword, Apply, UsersNumbered, NoChangeAt, LastChange;
    StampIsLastChange(Apply(a, cfg, step).0, cfg, later, b.user);
    LastChangeMeans(Apply(a, cfg, step).0, cfg, later, b.user, b.pwdAt);
  }

  /** The same over a whole run, for whatever any earlier step handed out. */
  lemma {:induction false} EarlierBearersDeadOnRuns(cfg: Config, before: seq<Step>, step: Step, later: seq<Step>,
        b: Bearer, when: Instant)
    requires var a := Run(Tables(map[], map[], 0, 0, 0), cfg, before);
      && ChangesPassword(a, cfg, step, b.user) && b.pwdAt != EpochMillis(Some(step.when))
      && NoChangeAt(Apply(a, cfg, step).0, cfg, later, b.user, b.pwdAt)
    ensures var a := Run(Tables(map[], map[], 0, 0, 0), cfg, before);
      Authenticated(Run(Apply(a, cfg, step).0, cfg, later), b, when).Some?
  {
    hide *;
    NumberedOnRuns(cfg, before);
    EarlierBearersDead(Run(Tables(map[], map[], 0, 0, 0), cfg, before), cfg, step, b, later, when);
  }

  /**
   On a clock that does not run backwards, a change at another millisecond is enough for what was handed out before it.
   */
  lemma {:induction false} EarlierBearersDeadTimely(cfg: Config, before: seq<Step>, i: nat, step: Step,
        later: seq<Step>, when: Instant)
    requires Monotone(before, 0) && (before != [] ==> before[|before| - 1].when <= step.when) && 0 <= step.when
    requires Monotone(later, step.when) && i < |before|
    requires Apply(Run(Tables(map[], map[], 0, 0, 0), cfg, before[..i]), cfg, before[i]).1.Session?
    requires var b := Apply(Run(Tables(map[], map[], 0, 0, 0), cfg, before[..i]), cfg, before[i]).1.bearer;
      && ChangesPassword(Run(Tables(map[], map[], 0, 0, 0), cfg, before), cfg, step, b.user)
      && b.pwdAt != EpochMillis(Some(step.when))
    ensures var b := Apply(Run(Tables(map[], map[], 0, 0, 0), cfg, before[..i]), cfg, before[i]).1.bearer;
      Authenticated(Run(Apply(Run(Tables(map[], map[], 0, 0, 0), cfg, before), cfg, step).0, cfg, later), b, when).Some?
  {
    var b := Apply(Run(Tables(map[], map[], 0, 0, 0), cfg, before[..i]), cfg, before[i]).1.bearer;
    hide Apply, Authenticated, Run, ChangesPassword, EpochMillis, ChangesPast;
    BearersNotFromFuture(cfg, before, step.when);
    forall j | 0 <= j < |later|
      ensures EpochMillis(Some(later[j].when)) != b.pwdAt
    {
      MillisMonotone(step.when, later[j].when);
    }
    EarlierBearersDeadOnRuns(cfg, before, step, later, b, when);
  }

  /** A disabled user's access tokens are refused; enabling the user again makes them good again. */
  lemma DisablementOnlySuspends(a: Tables, cfg: Config, actor: UserId, b: Bearer, off: Instant, on: Instant,
        when: Instant)
    requires b.user in a.users && a.users[b.user].active
    requires Apply(a, cfg, SetStatus(actor, b.user, false, off)).1.Fine?
    ensures var a1 := Apply(a, cfg, SetStatus(actor, b.user, false, off)).0;
      var a2 := Apply(a1, cfg, SetStatus(actor, b.user, true, on)).0;
      && Authenticated(a1, b, when).Some?
      && Authenticated(a2, b, when) == Authenticated(a, b, when)
  {
  }

  /** A role change does not touch access tokens at all. */
  lemma RoleChangeKeepsBearers(a: Tables, cfg: Config, actor: UserId, target: UserId, role: Role, now: Instant,
        b: Bearer, when: Instant)
    ensures Authenticated(Apply(a, cfg, ChangeRole(actor, target, role, now)).0, b, when) == Authenticated(a, b, when)
  {
  }

  /**
   A session just handed out works: its access token is accepted until it expires, which is within a second of
   the configured lifetime, and its refresh token can be exchanged until its own expiry.
   */
  lemma FreshSessionWorks(a: Tables, cfg: Config, step: Step, when: Instant)
    requires Apply(a, cfg, step).1.Session?
    ensures var (b, r) := Apply(a, cfg, step);
      && (Authenticated(b, r.bearer, when).None? <==> when < Seconds(r.bearer.exp))
      && (0 <= step.when + cfg.accessMinutes * 60_000_000 ==>
            Seconds(r.bearer.exp) <= step.when + cfg.accessMinutes * 60_000_000 < Seconds(r.bearer.exp + 1))
      && (when < step.when + Days(cfg.refreshDays) ==> Apply(b, cfg, Refresh(r.refresh, when)).1.Session?)
  {
  }

  // ------------------------------------------------------------ administrators

  ghost predicate SomeAdmin(a: Tables) { exists u :: u in a.users && a.users[u].active && a.users[u].role.Admin? }

  /** Fresh user ids are not in use. */
  ghost predicate UsersNumbered(a: Tables) { forall u :: u in a.users ==> u < a.nextUser }

  /** Whoever acts as administrator is one afterwards too; nobody else can remove the last one. */
  lemma AdminSurvives(a: Tables, cfg: Config, step: Step)
    requires SomeAdmin(a) && UsersNumbered(a)
    ensures SomeAdmin(Apply(a, cfg, step).0) && UsersNumbered(Apply(a, cfg, step).0)
  {
    var a' := Apply(a, cfg, step).0;
    var u :| u in a.users && a.users[u].active && a.users[u].role.Admin?;
    if (step.ChangeRole? || step.SetStatus?) && a' != a {
      assert step.actor in a'.users && a'.users[step.actor].active && a'.users[step.actor].role.Admin?;
    } else {
      assert u in a'.users && a'.users[u].active && a'.users[u].role.Admin?;
    }
  }

  /** Once an active administrator exists, every serial run keeps at least one. */
  lemma {:induction false} AdminForEver(a: Tables, cfg: Config, steps: seq<Step>)
    requires SomeAdmin(a) && UsersNumbered(a)
    ensures SomeAdmin(Run(a, cfg, steps)) && UsersNumbered(Run(a, cfg, steps))
    ensures var b := Run(a, cfg, steps); exists u :: u in b.users && b.users[u].active && b.users[u].role.Admin?
  {
    hide SomeAdmin, UsersNumbered, Apply;
    if steps != [] {
      var n := |steps| - 1;
      AdminForEver(a, cfg, steps[..n]);
      AdminSurvives(Run(a, cfg, steps[..n]), cfg, steps[n]);
    }
    SomebodyAdministers(Run(a, cfg, steps));
  }

  lemma SomebodyAdministers(a: Tables)
    requires SomeAdmin(a)
    ensures exists u :: u in a.users && a.users[u].active && a.users[u].role.Admin?
  {
  }
}
