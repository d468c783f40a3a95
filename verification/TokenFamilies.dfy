/**
 Refresh-token rotation over whole runs: each family is one chain in which only the newest token can be
 live, and a family without a live token never gets one again (section 10.4 of RFC 6749, section 4.14.2
 of RFC 9700).
 */
module TokenFamilies {
  import opened Base
  import opened Clock
  import opened Auth

  /** The tables with, for each family, every token ever issued in it, in order; purging rows leaves it alone. */
  datatype Ledger = Ledger(a: Tables, chains: map<Family, seq<TokenId>>)

  function ChainOf(l: Ledger, f: Family): seq<TokenId> { if f in l.chains then l.chains[f] else [] }

  /** Records what an operation issued at the end of its family's chain. */
  function Recorded(l: Ledger, cfg: Config, step: Step): Ledger {
    var (a', r) := Apply(l.a, cfg, step);
    if !r.Session? || r.refresh !in a'.tokens then Ledger(a', l.chains) else
    var f := a'.tokens[r.refresh].family;
    Ledger(a', l.chains[f := ChainOf(l, f) + [r.refresh]])
  }

  function Replay(l: Ledger, cfg: Config, steps: seq<Step>): Ledger {
    if steps == [] then l else Recorded(Replay(l, cfg, steps[..|steps| - 1]), cfg, steps[|steps| - 1])
  }

  const Empty := Ledger(Tables(map[], map[], 0, 0, 0), map[])

  /** The chains are bookkeeping only: the tables evolve as without them. */
  lemma {:induction false} ReplayIsRun(l: Ledger, cfg: Config, steps: seq<Step>)
    ensures Replay(l, cfg, steps).a == Run(l.a, cfg, steps)
  {
    if steps != [] { ReplayIsRun(l, cfg, steps[..|steps| - 1]); }
  }

  // ----------------------------------------------------------------- invariant

  function Newest(chain: seq<TokenId>): TokenId
    requires chain != []
  {
    chain[|chain| - 1]
  }

  ghost predicate Numbered(l: Ledger) {
    && (forall f: Family :: f in l.chains <==> f < l.a.nextFamily)
    && (forall f, i :: f in l.chains && 0 <= i < |l.chains[f]| ==> l.chains[f][i] < l.a.nextToken)
    && (forall f, i, j :: f in l.chains && 0 <= i < j < |l.chains[f]| ==> l.chains[f][i] < l.chains[f][j])
  }

  /** No token belongs to two families. */
  ghost predicate Separate(l: Ledger) {
    forall f, g, id :: f in l.chains && g in l.chains && id in l.chains[f] && id in l.chains[g] ==> f == g
  }

  /** Rows are members of their family's chain, and only its newest member can be live. */
  ghost predicate NewestOnly(l: Ledger) {
    forall id :: id in l.a.tokens ==>
      var f := l.a.tokens[id].family;
      f in l.chains && id in l.chains[f] && (l.a.tokens[id].Live() ==> id == Newest(l.chains[f]))
  }

  ghost predicate Good(l: Ledger) { Numbered(l) && Separate(l) && NewestOnly(l) }

  /** `b` has the rows of `a` or fewer, revives none and issues none. */
  ghost predicate Shrinks(a: Tables, b: Tables) {
    && b.nextToken == a.nextToken && b.nextFamily == a.nextFamily
    && (forall id :: id in b.tokens ==>
          id in a.tokens && b.tokens[id].family == a.tokens[id].family && b.tokens[id].user == a.tokens[id].user
          && (b.tokens[id].Live() ==> a.tokens[id].Live()))
  }

  /** Whatever does not issue a token only shrinks the table. */
  lemma NoSessionShrinks(a: Tables, cfg: Config, step: Step)
    requires !Apply(a, cfg, step).1.Session?
    ensures Shrinks(a, Apply(a, cfg, step).0)
  {
  }

  /** `b` is `a` with one new token of family `f` and, when it was rotated, its predecessor `old` revoked. */
  ghost predicate Extends(a: Tables, b: Tables, f: Family, id: TokenId) {
    && id == a.nextToken && b.nextToken == a.nextToken + 1
    && id in b.tokens && b.tokens[id].family == f && b.tokens[id].Live()
    && (forall i :: i in b.tokens && i != id ==>
          i in a.tokens && b.tokens[i].family == a.tokens[i].family && b.tokens[i].user == a.tokens[i].user
          && (b.tokens[i].Live() ==> a.tokens[i].Live() && a.tokens[i].family != f))
  }

  /** A sign-up or login starts a family of its own. */
  lemma NewFamily(l: Ledger, cfg: Config, step: Step)
    requires Good(l) && !step.Refresh? && Apply(l.a, cfg, step).1.Session?
    ensures var (b, r) := Apply(l.a, cfg, step);
      && Extends(l.a, b, l.a.nextFamily, r.refresh) && b.nextFamily == l.a.nextFamily + 1
  {
  }

  /** A rotation presents the newest token of its family, revokes it and appends its replacement. */
  lemma Rotation(l: Ledger, cfg: Config, step: Step)
    requires Good(l) && step.Refresh? && Apply(l.a, cfg, step).1.Session?
    ensures step.id in l.a.tokens && l.a.tokens[step.id].Live()
    ensures var f := l.a.tokens[step.id].family;
      var (b, r) := Apply(l.a, cfg, step);
      && f in l.chains && step.id == Newest(l.chains[f])
      && Extends(l.a, b, f, r.refresh) && b.nextFamily == l.a.nextFamily
      && step.id in b.tokens && !b.tokens[step.id].Live()
      && Recorded(l, cfg, step).chains[f] == l.chains[f] + [r.refresh]
  {
    var f := l.a.tokens[step.id].family;
    forall i | i in l.a.tokens && l.a.tokens[i].Live() && l.a.tokens[i].family == f
      ensures i == step.id
    {
    }
  }

  lemma ExtendedChains(l: Ledger, b: Tables, f: Family)
    requires Numbered(l) && Separate(l) && b.nextToken == l.a.nextToken + 1
    requires (f == l.a.nextFamily && b.nextFamily == l.a.nextFamily + 1) ||
      (f < l.a.nextFamily && b.nextFamily == l.a.nextFamily)
    ensures var l' := Ledger(b, l.chains[f := ChainOf(l, f) + [l.a.nextToken]]); Numbered(l') && Separate(l')
  {
    var l' := Ledger(b, l.chains[f := ChainOf(l, f) + [l.a.nextToken]]);
    forall g, id | g in l'.chains && id in l'.chains[g]
      ensures if id == l.a.nextToken then g == f else g in l.chains && id in l.chains[g]
    {
    }
  }

  lemma ExtendedGood(l: Ledger, b: Tables, f: Family, id: TokenId)
    requires Good(l) && Extends(l.a, b, f, id)
    requires (f == l.a.nextFamily && b.nextFamily == l.a.nextFamily + 1) ||
      (f < l.a.nextFamily && b.nextFamily == l.a.nextFamily)
    ensures Good(Ledger(b, l.chains[f := ChainOf(l, f) + [id]]))
  {
    var l' := Ledger(b, l.chains[f := ChainOf(l, f) + [id]]);
    ExtendedChains(l, b, f);
    hide Numbered, Separate;
    assert l'.chains[f][|l'.chains[f]| - 1] == id;
    forall i | i in b.tokens
      ensures b.tokens[i].family in l'.chains && i in l'.chains[b.tokens[i].family]
      ensures b.tokens[i].Live() ==> i == Newest(l'.chains[b.tokens[i].family])
    {
      if i != id { assert i in l.chains[l.a.tokens[i].family]; }
    }
  }

  lemma ShrunkGood(l: Ledger, b: Tables)
    requires Good(l) && Shrinks(l.a, b)
    ensures Good(Ledger(b, l.chains))
  {
  }

  lemma {:induction false} StepGood(l: Ledger, cfg: Config, step: Step)
    requires Good(l)
    ensures Good(Recorded(l, cfg, step))
  {
    hide Good, Apply, Extends, Shrinks;
    var (b, r) := Apply(l.a, cfg, step);
    if !r.Session? {
      NoSessionShrinks(l.a, cfg, step);
      ShrunkGood(l, b);
    } else if step.Refresh? {
      Rotation(l, cfg, step);
      var f := l.a.tokens[step.id].family;
      FamilyKnown(l, step.id);
      ExtendedRow(l.a, b, f, r.refresh);
      ExtendedGood(l, b, f, r.refresh);
    } else {
      NewFamily(l, cfg, step);
      ExtendedRow(l.a, b, l.a.nextFamily, r.refresh);
      ExtendedGood(l, b, l.a.nextFamily, r.refresh);
    }
  }

  lemma ExtendedRow(a: Tables, b: Tables, f: Family, id: TokenId)
    requires Extends(a, b, f, id)
    ensures id in b.tokens && b.tokens[id].family == f
  {
  }

  lemma FamilyKnown(l: Ledger, id: TokenId)
    requires Good(l) && id in l.a.tokens
    ensures l.a.tokens[id].family < l.a.nextFamily
  {
  }

  lemma EmptyGood()
    ensures Good(Empty)
  {
  }

  /** After every serial run, purges included, each family is a chain with at most its newest member live. */
  lemma {:induction false} ChainsOnRuns(cfg: Config, steps: seq<Step>)
    ensures Good(Replay(Empty, cfg, steps))
  {
    EmptyGood();
    hide Recorded, Good;
    if steps != [] {
      var n := |steps| - 1;
      ChainsOnRuns(cfg, steps[..n]);
      StepGood(Replay(Empty, cfg, steps[..n]), cfg, steps[n]);
    }
  }

  /** At most one token of a family is live. */
  lemma AtMostOneLive(cfg: Config, steps: seq<Step>, i: TokenId, j: TokenId)
    requires var t := Run(Empty.a, cfg, steps).tokens;
      i in t && j in t && t[i].family == t[j].family && t[i].Live() && t[j].Live()
    ensures i == j
  {
    ChainsOnRuns(cfg, steps);
    ReplayIsRun(Empty, cfg, steps);
    hide Replay, Run;
  }

  /** A refresh succeeds exactly for a known, live, unexpired token of an active user, whose session it continues. */
  lemma RefreshSucceedsExactly(a: Tables, cfg: Config, id: TokenId, now: Instant)
    ensures Apply(a, cfg, Refresh(id, now)).1.Session? <==>
      id in a.tokens && a.tokens[id].Live() && now < a.tokens[id].expiresAt
      && a.tokens[id].user in a.users && a.users[a.tokens[id].user].active
    ensures var (b, r) := Apply(a, cfg, Refresh(id, now));
      && (r.Session? ==> r.bearer.user == a.tokens[id].user && r.refresh in b.tokens)
      && (r.Session? ==>
           b.tokens[r.refresh].family == a.tokens[id].family && b.tokens[r.refresh].user == a.tokens[id].user)
  {
  }

  // ------------------------------------------------------------- dead families

  ghost predicate Dead(a: Tables, f: Family) {
    f < a.nextFamily && forall id :: id in a.tokens && a.tokens[id].family == f ==> !a.tokens[id].Live()
  }

  /** Presenting a token that was rotated away, while its row still exists, leaves no live token in its family. */
  lemma ReuseKillsFamily(l: Ledger, cfg: Config, step: Step)
    requires Good(l) && step.Refresh? && step.id in l.a.tokens && !l.a.tokens[step.id].Live()
    ensures Apply(l.a, cfg, step).1 == Denied(TokenInvalid)
    ensures Dead(Apply(l.a, cfg, step).0, l.a.tokens[step.id].family)
  {
  }

  /**
   Presenting a token that was rotated away is always refused, and ends its family exactly if its row still
   exists: a row deleted after its expiry is forgotten, and so is the reuse.
   */
  lemma ReuseKillsExactly(l: Ledger, cfg: Config, f: Family, id: TokenId, now: Instant)
    requires Good(l) && f in l.chains && id in l.chains[f] && id != Newest(l.chains[f])
    ensures Apply(l.a, cfg, Refresh(id, now)).1 == Denied(TokenInvalid)
    ensures Dead(Apply(l.a, cfg, Refresh(id, now)).0, f) <==> id in l.a.tokens || Dead(l.a, f)
  {
    if id in l.a.tokens { assert id in l.chains[l.a.tokens[id].family]; }
  }

  /**
   A reuse that goes unnoticed: a session rotated a microsecond before its first token expires, the sweep of
   expired rows, and then the first token again. It is refused, nothing changes, and its family goes on.
   */
  lemma PurgedReuseUnnoticed(cfg: Config, password: string) returns (steps: seq<Step>, now: Instant)
    requires cfg.selfRegistration && 1 <= cfg.refreshDays
    ensures steps == [Register(false, password, 0), Refresh(0, Days(cfg.refreshDays) - 1), PurgeTokens(now)]
    ensures var l := Replay(Empty, cfg, steps);
      && 0 in l.chains && l.chains[0] == [0, 1] && 0 !in l.a.tokens && 1 in l.a.tokens && l.a.tokens[1].Live()
      && Apply(l.a, cfg, Refresh(0, now)) == (l.a, Denied(TokenInvalid))
      && Apply(l.a, cfg, Refresh(1, now)).1.Session?
  {
    now := Days(cfg.refreshDays) + 1;
    var s0, s1, s2 := Register(false, password, 0), Refresh(0, Days(cfg.refreshDays) - 1), PurgeTokens(now);
    steps := [s0, s1, s2];
    assert steps[..2] == [s0, s1] && steps[..2][..1] == [s0] && [s0, s1][..1] == [s0] && [s0][..0] == [];
    var l1 := Recorded(Empty, cfg, s0);
    assert Replay(Empty, cfg, []) == Empty;
    assert Replay(Empty, cfg, [s0]) == l1;
    var l2 := Recorded(l1, cfg, s1);
    assert Replay(Empty, cfg, [s0, s1]) == l2;
    hide Replay;
    assert l1.chains[0] == [0];
    assert l2.chains[0] == [0, 1];
  }

  /** Once its row is purged, a token of any age only earns a refusal and changes nothing. */
  lemma PurgedTokenIsInert(a: Tables, cfg: Config, step: Step)
    requires step.Refresh? && step.id !in a.tokens
    ensures Apply(a, cfg, step) == (a, Denied(TokenInvalid))
  {
  }

  lemma {:induction false} DeadStaysDead(l: Ledger, cfg: Config, step: Step, f: Family)
    requires Good(l) && Dead(l.a, f)
    ensures Dead(Apply(l.a, cfg, step).0, f)
  {
    hide Good, Apply;
    if !Apply(l.a, cfg, step).1.Session? {
      NoSessionShrinks(l.a, cfg, step);
    } else if step.Refresh? {
      Rotation(l, cfg, step);
    } else {
      NewFamily(l, cfg, step);
    }
  }

  /** A family with no live token never gets one again, on any run. */
  lemma {:induction false} DeadForEver(l: Ledger, cfg: Config, steps: seq<Step>, f: Family)
    requires Good(l) && Dead(l.a, f)
    ensures Good(Replay(l, cfg, steps)) && Dead(Run(l.a, cfg, steps), f)
  {
    hide Good, Dead, Apply;
    if steps != [] {
      var n := |steps| - 1;
      DeadForEver(l, cfg, steps[..n], f);
      ReplayIsRun(l, cfg, steps[..n]);
      StepGood(Replay(l, cfg, steps[..n]), cfg, steps[n]);
      DeadStaysDead(Replay(l, cfg, steps[..n]), cfg, steps[n], f);
    }
  }

  /** Rotating the same token twice ends the session it was rotated into. */
  lemma DoubleRotationKills(l: Ledger, cfg: Config, id: TokenId, now: Instant, later: Instant)
    requires Good(l) && Apply(l.a, cfg, Refresh(id, now)).1.Session?
    ensures var b := Apply(l.a, cfg, Refresh(id, now)).0;
      && Apply(b, cfg, Refresh(id, later)).1 == Denied(TokenInvalid)
      && Dead(Apply(b, cfg, Refresh(id, later)).0, l.a.tokens[id].family)
  {
    Rotation(l, cfg, Refresh(id, now));
    StepGood(l, cfg, Refresh(id, now));
    hide Apply, Good;
    var l' := Recorded(l, cfg, Refresh(id, now));
    ReuseKillsFamily(l', cfg, Refresh(id, later));
  }
}
