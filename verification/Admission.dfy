/** What the limiter lets through: counts, bounds, waits, lockout, and how far sweeping old rows shows. */
module Admission {
  import opened Base
  import opened Clock
  import opened RateLimit

  // --------------------------------------------------- counts in any order

  /** Step `i` deletes rows of a window in which requests had been let through. */
  predicate SweepsAt(s: Settings, steps: seq<Step>, i: nat, k: BucketKey) {
    && i < |steps| && steps[i].Sweep? && EndOf(s, k) < steps[i].at
    && InWindow(s, Run(Ledger(map[], []), s, steps[..i]).marks, k) > 0
  }

  ghost predicate SweptAway(s: Settings, steps: seq<Step>, k: BucketKey) { exists i: nat :: SweepsAt(s, steps, i, k) }

  lemma SweptAwayGrows(s: Settings, steps: seq<Step>, k: BucketKey)
    requires steps != []
    ensures SweptAway(s, steps, k) <==> SweptAway(s, steps[..|steps| - 1], k) || SweepsAt(s, steps, |steps| - 1, k)
  {
    hide Run, InWindow;
    var n := |steps| - 1;
    assert forall i: nat :: i <= n ==> steps[..n][..i] == steps[..i];
    assert forall i: nat :: i < n ==> (SweepsAt(s, steps[..n], i, k) <==> SweepsAt(s, steps, i, k));
  }

  predicate RowSane(b: Buckets, s: Settings, k: BucketKey) { k in b ==> 0 < b[k].count && b[k].expires == EndOf(s, k) }

  lemma RequestCounts(l: Ledger, s: Settings, step: Step, k: BucketKey)
    requires step.Request? && RowSane(l.buckets, s, k)
    ensures var l' := Next(l, s, step);
      && RowSane(l'.buckets, s, k)
      && InWindow(s, l'.marks, k) - InWindow(s, l.marks, k) == CountAt(l'.buckets, k) - CountAt(l.buckets, k)
      && (InWindow(s, l'.marks, k) > InWindow(s, l.marks, k) ==>
            && InWindow(s, l'.marks, k) == InWindow(s, l.marks, k) + 1
            && KeyAt(s, step.name, step.identifier, step.now) == k
            && CountAt(l.buckets, k) < s.Of(k.name).maxRequests)
  {
    hide WindowStart, InWindow;
    InWindowAppend(s, l.marks, Mark(step.name, step.identifier, step.now), k);
  }

  /** Logins touch the account windows only. */
  lemma LoginCounts(l: Ledger, s: Settings, step: Step, k: BucketKey)
    requires step.LoginTry? && !k.name.Login?
    ensures var l' := Next(l, s, step);
      && (k in l'.buckets <==> k in l.buckets) && (k in l.buckets ==> l'.buckets[k] == l.buckets[k])
      && InWindow(s, l'.marks, k) == InWindow(s, l.marks, k)
  {
    hide WindowStart, InWindow, Without;
    InWindowAppend(s, l.marks, Mark(Login, step.identifier, step.ended), k);
    InWindowWithout(s, l.marks, Login, step.identifier, k);
  }

  /**
   Whatever the order of the clock readings, a stored count is never more than the number of requests let through
   in its window, and equals it exactly as long as no sweep deleted the window's rows.
   */
  lemma {:induction false} CountExactly(s: Settings, steps: seq<Step>, k: BucketKey)
    requires !k.name.Login?
    ensures var l := Run(Ledger(map[], []), s, steps);
      && RowSane(l.buckets, s, k)
      && CountAt(l.buckets, k) <= InWindow(s, l.marks, k)
      && (CountAt(l.buckets, k) == InWindow(s, l.marks, k) <==> !SweptAway(s, steps, k))
  {
    hide Next, InWindow, SweptAway, EndOf;
    if steps == [] {
      NothingSwept(s, k);
    } else {
      var n := |steps| - 1;
      var l := Run(Ledger(map[], []), s, steps[..n]);
      CountExactly(s, steps[..n], k);
      SweptAwayGrows(s, steps, k);
      match steps[n]
      case Request(_, _, _) => RequestCounts(l, s, steps[n], k);
      case LoginTry(_, _, _, _) => LoginCounts(l, s, steps[n], k);
      case Sweep(at) => assert Next(l, s, steps[n]) == Ledger(Swept(l.buckets, at), l.marks) by { SweepOnly(l, s, at); }
    }
  }

  lemma SweepOnly(l: Ledger, s: Settings, at: Instant)
    ensures Next(l, s, Sweep(at)) == Ledger(Swept(l.buckets, at), l.marks)
  {
  }

  lemma NothingSwept(s: Settings, k: BucketKey)
    ensures !SweptAway(s, [], k) && InWindow(s, [], k) == 0
  {
  }

  /** No request falls into the window after its rows were swept away. */
  ghost predicate Intact(s: Settings, steps: seq<Step>, k: BucketKey) {
    forall j: nat ::
      j < |steps| && steps[j].Request? && KeyAt(s, steps[j].name, steps[j].identifier, steps[j].now) == k ==>
      !SweptAway(s, steps[..j], k)
  }

  lemma IntactPrefix(s: Settings, steps: seq<Step>, n: nat, k: BucketKey)
    requires Intact(s, steps, k) && n <= |steps|
    ensures Intact(s, steps[..n], k)
  {
    hide SweptAway, KeyAt;
    assert forall j: nat :: j < n ==> steps[..n][..j] == steps[..j];
  }

  /** A window whose requests all come before its rows are swept never lets more than the limit through. */
  lemma {:induction false} WindowWithinLimit(s: Settings, steps: seq<Step>, k: BucketKey)
    requires !k.name.Login? && Intact(s, steps, k)
    ensures InWindow(s, Run(Ledger(map[], []), s, steps).marks, k) <= Max(0, s.Of(k.name).maxRequests)
  {
    hide Next, InWindow, SweptAway, KeyAt;
    if steps == [] {
      NothingSwept(s, k);
    } else {
      var n := |steps| - 1;
      var l := Run(Ledger(map[], []), s, steps[..n]);
      IntactPrefix(s, steps, n, k);
      WindowWithinLimit(s, steps[..n], k);
      CountExactly(s, steps[..n], k);
      match steps[n]
      case Request(_, _, _) => RequestCounts(l, s, steps[n], k);
      case LoginTry(_, _, _, _) => LoginCounts(l, s, steps[n], k);
      case Sweep(at) => SweepOnly(l, s, at);
    }
  }

  /** Every sweep comes, in time, before the requests serialised after it; nothing else need be in order. */
  ghost predicate SweepsFirst(steps: seq<Step>) {
    forall i, j :: 0 <= i < j < |steps| && steps[i].Sweep? && steps[j].Request? ==> steps[i].at <= steps[j].now
  }

  lemma WindowNotOver(s: Settings, name: Name, identifier: string, now: Instant)
    ensures now < EndOf(s, KeyAt(s, name, identifier, now))
  {
    var w, e := s.Of(name).windowSeconds, WholeSeconds(now);
    Euclid(e, w);
  }

  lemma CurrentUnswept(s: Settings, steps: seq<Step>, name: Name, identifier: string, now: Instant)
    requires SweepsFirst(steps + [Request(name, identifier, now)])
    ensures !SweptAway(s, steps, KeyAt(s, name, identifier, now))
  {
    hide Run, InWindow, KeyAt, EndOf;
    var all := steps + [Request(name, identifier, now)];
    WindowNotOver(s, name, identifier, now);
    forall i: nat | i < |steps| && steps[i].Sweep?
      ensures steps[i].at <= now
    {
      assert all[i] == steps[i] && all[|steps|].Request?;
    }
  }

  lemma SweepsFirstIntact(s: Settings, steps: seq<Step>, k: BucketKey)
    requires SweepsFirst(steps)
    ensures Intact(s, steps, k)
  {
    hide SweptAway, KeyAt;
    forall j: nat | j < |steps| && steps[j].Request? && KeyAt(s, steps[j].name, steps[j].identifier, steps[j].now) == k
      ensures !SweptAway(s, steps[..j], k)
    {
      assert steps[..j] + [Request(steps[j].name, steps[j].identifier, steps[j].now)] == steps[..j + 1];
      CurrentUnswept(s, steps[..j], steps[j].name, steps[j].identifier, steps[j].now);
    }
  }

  /** Steps on a clock that does not run backwards have their sweeps first. */
  lemma SerialSweepsFirst(steps: seq<Step>, name: Name, identifier: string, now: Instant)
    requires Serial(steps) && ClockOf(steps) <= now
    ensures SweepsFirst(steps) && SweepsFirst(steps + [Request(name, identifier, now)])
  {
    forall i | 0 <= i < |steps| && steps[i].Sweep?
      ensures steps[i].at <= now
    {
      var n := |steps| - 1;
      if i < n { assert steps[i].Last() <= steps[n].First() && steps[n].Timed(); }
    }
  }

  /** The stored count met by a request is the number of requests admitted in its window, and never above the limit. */
  lemma CountIsAdmitted(s: Settings, steps: seq<Step>, name: Name, identifier: string, now: Instant)
    requires !name.Login? && SweepsFirst(steps + [Request(name, identifier, now)])
    ensures var l := Run(Ledger(map[], []), s, steps);
      var k := KeyAt(s, name, identifier, now);
      CountAt(l.buckets, k) == InWindow(s, l.marks, k) <= Max(0, s.Of(name).maxRequests)
  {
    var k := KeyAt(s, name, identifier, now);
    CurrentUnswept(s, steps, name, identifier, now);
    CountExactly(s, steps, k);
    assert SweepsFirst(steps) by {
      assert forall i :: 0 <= i < |steps| ==> (steps + [Request(name, identifier, now)])[i] == steps[i];
    }
    SweepsFirstIntact(s, steps, k);
    WindowWithinLimit(s, steps, k);
    hide Run, InWindow, SweptAway, Intact;
  }

  /** Marks of one key at instants `from <= at < until`. */
  function Between(marks: seq<Mark>, name: Name, identifier: string, from: Instant, until: Instant): nat {
    if marks == [] then 0 else
    var last := marks[|marks| - 1];
    Between(marks[..|marks| - 1], name, identifier, from, until)
    + (if last.name == name && last.identifier == identifier && from <= last.at < until then 1 else 0)
  }

  lemma {:induction false} BetweenInTwoWindows(s: Settings, marks: seq<Mark>, name: Name, identifier: string,
        from: Instant)
    requires 0 <= from
    ensures var k := KeyAt(s, name, identifier, from);
      Between(marks, name, identifier, from, from + Seconds(s.Of(name).windowSeconds))
      <= InWindow(s, marks, k) + InWindow(s, marks, k.(start := k.start + s.Of(name).windowSeconds))
  {
    hide WindowStart;
    if marks != [] {
      var m := marks[|marks| - 1];
      BetweenInTwoWindows(s, marks[..|marks| - 1], name, identifier, from);
      if m.name == name && m.identifier == identifier && from <= m.at < from + Seconds(s.Of(name).windowSeconds) {
        TwoWindowsCover(s.Of(name).windowSeconds, from, m.at);
      }
    }
  }

  /** No interval as long as the window, wherever it begins, sees more than twice the limit. */
  lemma AnyIntervalAdmitsAtMostTwice(s: Settings, steps: seq<Step>, name: Name, identifier: string, from: Instant)
    requires !name.Login? && SweepsFirst(steps) && 0 <= from
    ensures var until := from + Seconds(s.Of(name).windowSeconds);
      Between(Run(Ledger(map[], []), s, steps).marks, name, identifier, from, until)
         <= 2 * Max(0, s.Of(name).maxRequests)
  {
    hide Run, InWindow, Between, WindowStart, Intact, SweepsFirst;
    var k := KeyAt(s, name, identifier, from);
    var k' := k.(start := k.start + s.Of(name).windowSeconds);
    BetweenInTwoWindows(s, Run(Ledger(map[], []), s, steps).marks, name, identifier, from);
    SweepsFirstIntact(s, steps, k);
    SweepsFirstIntact(s, steps, k');
    WindowWithinLimit(s, steps, k);
    WindowWithinLimit(s, steps, k');
  }

  /** A request is refused exactly when its window has already let the limit through. */
  lemma {:induction false} RefusedExactlyWhenFull(s: Settings, steps: seq<Step>, name: Name, identifier: string,
        now: Instant)
    requires !name.Login? && SweepsFirst(steps + [Request(name, identifier, now)])
    ensures var l := Run(Ledger(map[], []), s, steps);
      VerdictOf(l.buckets, s, Request(name, identifier, now)).value.Limited?
      <==> InWindow(s, l.marks, KeyAt(s, name, identifier, now)) >= s.Of(name).maxRequests
  {
    CountIsAdmitted(s, steps, name, identifier, now);
    hide Run, InWindow, WindowStart, SweepsFirst;
  }

  // -------------------------------------------- what a late request can do

  /** A burst in a window without a row is let through in full, up to the limit. */
  lemma {:induction false} NewRowBurst(l: Ledger, s: Settings, name: Name, identifier: string, now: Instant, n: nat,
        until: Instant)
    requires !name.Login? && n <= s.Of(name).maxRequests && now < until
    requires KeyAt(s, name, identifier, now) !in l.buckets
    ensures var l' := Run(l, s, Burst(name, identifier, now, n));
      var k := KeyAt(s, name, identifier, now);
      && CountAt(l'.buckets, k) == n
      && (k in l'.buckets ==> l'.buckets[k].expires == EndOf(s, k))
      && Between(l'.marks, name, identifier, now, until) == Between(l.marks, name, identifier, now, until) + n
  {
    hide WindowStart, Between, Burst, EndOf;
    RunBurst(l, s, name, identifier, now, n);
    if n > 0 {
      NewRowBurst(l, s, name, identifier, now, n - 1, until);
      var l1 := Run(l, s, Burst(name, identifier, now, n - 1));
      BetweenAppend(l1.marks, Mark(name, identifier, now), name, identifier, now, until);
      hide Run;
    }
  }

  /** Bursts that read the clock at 0, each serialised after a sweep that read it past the end of that window. */
  function LateRounds(s: Settings, name: Name, identifier: string, rounds: nat): seq<Step>
    requires 0 <= s.Of(name).maxRequests
  {
    if rounds == 0 then [] else
    LateRounds(s, name, identifier, rounds - 1)
    + Burst(name, identifier, 0, s.Of(name).maxRequests)
    + [Sweep(EndOf(s, KeyAt(s, name, identifier, 0)) + 1)]
  }

  /** Without that order there is no bound: one window can let the limit through any number of times. */
  lemma {:induction false} LateRequestsUnbounded(s: Settings, name: Name, identifier: string, rounds: nat)
    requires !name.Login? && 0 <= s.Of(name).maxRequests
    ensures var l := Run(Ledger(map[], []), s, LateRounds(s, name, identifier, rounds));
      && KeyAt(s, name, identifier, 0) !in l.buckets
      && Between(l.marks, name, identifier, 0, Seconds(s.Of(name).windowSeconds)) == rounds * s.Of(name).maxRequests
  {
    hide WindowStart, Burst, Next;
    var l0 := Ledger(map[], []);
    if rounds > 0 {
      var k, m := KeyAt(s, name, identifier, 0), s.Of(name).maxRequests;
      var before, burst := LateRounds(s, name, identifier, rounds - 1), Burst(name, identifier, 0, m);
      var sweep := Sweep(EndOf(s, k) + 1);
      LateRequestsUnbounded(s, name, identifier, rounds - 1);
      WindowPositive(s, name);
      NewRowBurst(Run(l0, s, before), s, name, identifier, 0, m, Seconds(s.Of(name).windowSeconds));
      RunConcat(l0, s, before, burst);
      assert (before + burst + [sweep])[..|before + burst|] == before + burst;
      SweepOnly(Run(l0, s, before + burst), s, sweep.at);
      assert rounds * m == (rounds - 1) * m + m;
    }
  }

  // ------------------------------------------------------------ failed logins

  /** The stored count of an account's current window is the number of failures since its last success. */
  lemma FailuresAreCounted(s: Settings, steps: seq<Step>, identifier: string, now: Instant)
    requires Serial(steps) && ClockOf(steps) <= now
    ensures var l := Run(Ledger(map[], []), s, steps);
      var k := KeyAt(s, Login, identifier, now);
      CountAt(l.buckets, k) == InWindow(s, l.marks, k) <= Max(0, s.Of(Login).maxRequests)
  {
    RunGood(s, steps);
    CurrentCountExact(Run(Ledger(map[], []), s, steps), s, ClockOf(steps), Login, identifier, now);
  }

  /** No interval as long as the window sees more than twice the limit of failures since the last success. */
  lemma AnyIntervalFailsAtMostTwice(s: Settings, steps: seq<Step>, identifier: string, from: Instant)
    requires Serial(steps) && 0 <= from
    ensures var until := from + Seconds(s.Of(Login).windowSeconds);
      Between(Run(Ledger(map[], []), s, steps).marks, Login, identifier, from, until)
         <= 2 * Max(0, s.Of(Login).maxRequests)
  {
    var l := Run(Ledger(map[], []), s, steps);
    RunGood(s, steps);
    BetweenInTwoWindows(s, l.marks, Login, identifier, from);
    var k := KeyAt(s, Login, identifier, from);
    hide Run, InWindow, Between, WindowStart;
    assert InWindow(s, l.marks, k) <= Max(0, s.Of(k.name).maxRequests);
    var k' := k.(start := k.start + s.Of(Login).windowSeconds);
    assert InWindow(s, l.marks, k') <= Max(0, s.Of(k'.name).maxRequests);
  }

  // ------------------------------------------------------- the bound is reached

  function Burst(name: Name, identifier: string, now: Instant, n: nat): seq<Step> {
    if n == 0 then [] else Burst(name, identifier, now, n - 1) + [Request(name, identifier, now)]
  }

  lemma BurstAt(name: Name, identifier: string, now: Instant, n: nat)
    ensures |Burst(name, identifier, now, n)| == n
    ensures forall i :: 0 <= i < n ==> Burst(name, identifier, now, n)[i] == Request(name, identifier, now)
  {
  }

  /** One more request with room in its window is let through and counted, in its window and no other. */
  lemma OneMore(l: Ledger, s: Settings, clock: Instant, name: Name, identifier: string, now: Instant, other: BucketKey,
        a: Instant, b: Instant)
    requires Good(l, s, clock) && 0 <= clock <= now && !name.Login? && a <= now < b
    requires InWindow(s, l.marks, KeyAt(s, name, identifier, now)) < s.Of(name).maxRequests
    requires other != KeyAt(s, name, identifier, now)
    ensures var l' := Next(l, s, Request(name, identifier, now));
      && Good(l', s, now)
      && InWindow(s, l'.marks, KeyAt(s, name, identifier, now)) ==
           InWindow(s, l.marks, KeyAt(s, name, identifier, now)) + 1
      && InWindow(s, l'.marks, other) == InWindow(s, l.marks, other)
      && Between(l'.marks, name, identifier, a, b) == Between(l.marks, name, identifier, a, b) + 1
  {
    hide Good, WindowStart, Between;
    var m := Mark(name, identifier, now);
    CurrentCountExact(l, s, clock, name, identifier, now);
    StepGood(l, s, clock, Request(name, identifier, now));
    assert Next(l, s, Request(name, identifier, now)).marks == l.marks + [m];
    InWindowAppend(s, l.marks, m, KeyAt(s, name, identifier, now));
    InWindowAppend(s, l.marks, m, other);
    BetweenAppend(l.marks, m, name, identifier, a, b);
  }

  lemma BetweenAppend(marks: seq<Mark>, m: Mark, name: Name, identifier: string, a: Instant, b: Instant)
    ensures Between(marks + [m], name, identifier, a, b)
         == Between(marks, name, identifier, a, b) +
           (if m.name == name && m.identifier == identifier && a <= m.at < b then 1 else 0)
  {
    assert (marks + [m])[..|marks|] == marks;
  }

  /** A burst that fits the room left in its window is let through in full. */
  lemma {:induction false} BurstAdmitted(l: Ledger, s: Settings, clock: Instant, name: Name, identifier: string,
        now: Instant, n: nat, other: BucketKey, a: Instant, b: Instant)
    requires Good(l, s, clock) && 0 <= clock <= now && !name.Login? && a <= now < b
    requires InWindow(s, l.marks, KeyAt(s, name, identifier, now)) + n <= s.Of(name).maxRequests
    requires other != KeyAt(s, name, identifier, now)
    ensures var l' := Run(l, s, Burst(name, identifier, now, n));
      && Good(l', s, now)
      && InWindow(s, l'.marks, KeyAt(s, name, identifier, now)) ==
           InWindow(s, l.marks, KeyAt(s, name, identifier, now)) + n
      && InWindow(s, l'.marks, other) == InWindow(s, l.marks, other)
      && Between(l'.marks, name, identifier, a, b) == Between(l.marks, name, identifier, a, b) + n
  {
    hide *;
    RunBurst(l, s, name, identifier, now, n);
    if n == 0 {
      GoodLater(l, s, clock, now);
    } else {
      BurstAdmitted(l, s, clock, name, identifier, now, n - 1, other, a, b);
      OneMore(Run(l, s, Burst(name, identifier, now, n - 1)), s, now, name, identifier, now, other, a, b);
    }
  }

  lemma RunBurst(l: Ledger, s: Settings, name: Name, identifier: string, now: Instant, n: nat)
    ensures n == 0 ==> Run(l, s, Burst(name, identifier, now, n)) == l
    ensures n > 0 ==>
      Run(l, s, Burst(name, identifier, now, n)) ==
        Next(Run(l, s, Burst(name, identifier, now, n - 1)), s, Request(name, identifier, now))
  {
    hide Next;
    if n > 0 {
      var steps := Burst(name, identifier, now, n - 1);
      assert (steps + [Request(name, identifier, now)])[..|steps|] == steps;
    }
  }

  lemma {:induction false} RunConcat(l: Ledger, s: Settings, first: seq<Step>, second: seq<Step>)
    ensures Run(l, s, first + second) == Run(Run(l, s, first), s, second)
  {
    hide Next;
    if second == [] {
      assert first + second == first;
    } else {
      var n := |second| - 1;
      RunConcat(l, s, first, second[..n]);
      assert (first + second)[..|first + second| - 1] == first + second[..n];
    }
  }

  /** Twice the limit is reached: a full burst at the last instant of a window, and another at the first of the next. */
  lemma TwiceTheLimitIsReached(s: Settings, name: Name, identifier: string) returns (steps: seq<Step>, from: Instant)
    requires !name.Login? && 0 <= s.Of(name).maxRequests
    ensures Serial(steps) && 0 <= from
    ensures var until := from + Seconds(s.Of(name).windowSeconds);
      Between(Run(Ledger(map[], []), s, steps).marks, name, identifier, from, until) == 2 * s.Of(name).maxRequests
  {
    hide *;
    var w, m := s.Of(name).windowSeconds, s.Of(name).maxRequests;
    WindowPositive(s, name);
    from := LastOfFirstWindow(w);
    var next := from + 1;
    var until := from + Seconds(w);
    var first, second := Burst(name, identifier, from, m), Burst(name, identifier, next, m);
    steps := first + second;
    BurstsSerial(name, identifier, from, m);
    var k0, k1 := KeyAt(s, name, identifier, from), KeyAt(s, name, identifier, next);
    EdgeKeys(s, name, identifier);
    EmptyGood(s);
    var l0 := Ledger(map[], []);
    NothingMarked(s, name, identifier, k0, k1, from, until);
    BurstAdmitted(l0, s, 0, name, identifier, from, m, k1, from, until);
    BurstAdmitted(Run(l0, s, first), s, from, name, identifier, next, m, k0, from, until);
    RunConcat(l0, s, first, second);
  }

  lemma WindowPositive(s: Settings, name: Name)
    ensures 0 < s.Of(name).windowSeconds
  {
  }

  /** The last microsecond of the first window. */
  function LastOfFirstWindow(w: int): (t: Instant)
    ensures 0 < w ==> 0 <= t < t + 1 < t + Seconds(w)
  {
    Seconds(w) - 1
  }

  lemma BurstsSerial(name: Name, identifier: string, from: Instant, m: nat)
    requires !name.Login? && 0 <= from
    ensures Serial(Burst(name, identifier, from, m) + Burst(name, identifier, from + 1, m))
  {
    BurstAt(name, identifier, from, m);
    BurstAt(name, identifier, from + 1, m);
    hide Burst;
  }

  lemma EdgeKeys(s: Settings, name: Name, identifier: string)
    ensures var from := LastOfFirstWindow(s.Of(name).windowSeconds);
      KeyAt(s, name, identifier, from) != KeyAt(s, name, identifier, from + 1)
  {
    EdgeOfWindow(s.Of(name).windowSeconds);
  }

  lemma NothingMarked(s: Settings, name: Name, identifier: string, k0: BucketKey, k1: BucketKey, a: Instant, b: Instant)
    ensures InWindow(s, [], k0) == 0 && InWindow(s, [], k1) == 0 && Between([], name, identifier, a, b) == 0
  {
  }

  lemma EdgeOfWindow(w: int)
    requires 0 < w
    ensures WindowStart(Seconds(w) - 1, w) == 0 && WindowStart(Seconds(w), w) == w
  {
    assert WholeSeconds(Seconds(w)) == w && WholeSeconds(Seconds(w) - 1) == w - 1;
    SmallModulus(w - 1, w);
    assert w % w == 0;
  }

  lemma SmallModulus(e: int, w: int)
    requires 0 <= e < w
    ensures e % w == e
  {
  }

  // -------------------------------------------------------- the advertised wait

  /** Every instant before the end of a window, from any instant in it on, lies in it. */
  lemma {:induction false} SameWindow(t: Instant, u: Instant, w: int)
    requires 0 < w && 0 <= t <= u < Seconds(WindowStart(t, w) + w)
    ensures WindowStart(u, w) == WindowStart(t, w)
  {
    var e, f := WholeSeconds(t), WholeSeconds(u);
    Euclid(e, w);
    Euclid(f, w);
    if WindowStart(t, w) != WindowStart(u, w) { LaterMultiple(w, e / w, e % w, f / w, f % w); }
  }

  lemma {:induction false} PastEndIsLater(t: Instant, u: Instant, w: int)
    requires 0 < w && 0 <= t && Seconds(WindowStart(t, w) + w) <= u
    ensures WindowStart(u, w) != WindowStart(t, w)
  {
    var f := WholeSeconds(u);
    Euclid(f, w);
  }

  /** On a serial run, a request at or after the end of the current window meets an empty one. */
  lemma {:induction false} NextWindowEmpty(s: Settings, steps: seq<Step>, name: Name, identifier: string, now: Instant,
        later: Instant)
    requires Serial(steps) && ClockOf(steps) <= now && EndOf(s, KeyAt(s, name, identifier, now)) <= later
    ensures now <= later && InWindow(s, Run(Ledger(map[], []), s, steps).marks, KeyAt(s, name, identifier, later)) == 0
  {
    var w := s.Of(name).windowSeconds;
    RunGood(s, steps);
    WindowNotOver(s, name, identifier, now);
    PastEndIsLater(now, later, w);
    WindowsAdvance(now, later, w);
    hide Run, InWindow, WindowStart;
    LaterWindowEmpty(s, Run(Ledger(map[], []), s, steps).marks, ClockOf(steps), KeyAt(s, name, identifier, later));
  }

  /**
   Whether doing exactly the advertised wait helps: on a serial run, a refused request that comes again then is let
   in exactly if the limit admits anyone and nothing, or all of a last second, was truncated away.
   */
  lemma {:induction false} WaitAdmitsExactly(s: Settings, steps: seq<Step>, name: Name, identifier: string,
        now: Instant, wait: int)
    requires !name.Login? && Serial(steps) && ClockOf(steps) <= now
    requires VerdictOf(Run(Ledger(map[], []), s, steps).buckets, s, Request(name, identifier, now)) ==
      Some(Limited(wait))
    ensures var end := EndOf(s, KeyAt(s, name, identifier, now));
      VerdictOf(Run(Ledger(map[], []), s, steps).buckets, s, Request(name, identifier, now + Seconds(wait))) ==
        Some(Admitted)
      <==> 0 < s.Of(name).maxRequests && (end - now <= Seconds(1) || (end - now) % 1_000_000 == 0)
  {
    hide Run, InWindow, WindowStart, Serial, SweepsFirst;
    var k := KeyAt(s, name, identifier, now);
    var later := now + Seconds(wait);
    RunGood(s, steps);
    assert wait == RetryAfter(EndOf(s, k), now);
    AdvertisedWaitSuffices(s, name, identifier, now);
    SerialSweepsFirst(steps, name, identifier, now);
    SerialSweepsFirst(steps, name, identifier, later);
    RefusedExactlyWhenFull(s, steps, name, identifier, now);
    RefusedExactlyWhenFull(s, steps, name, identifier, later);
    if later < EndOf(s, k) {
      SameWindow(now, later, s.Of(name).windowSeconds);
    } else {
      NextWindowEmpty(s, steps, name, identifier, now, later);
    }
  }

  /**
   The advertised wait really falls short: half a second into a window of two seconds or more, used up by a burst,
   a request is told to wait one second less than the window, and is refused again if it does exactly that.
   */
  lemma AdvertisedWaitFallsShort(s: Settings, name: Name, identifier: string)
    returns (steps: seq<Step>, now: Instant, wait: int)
    requires !name.Login? && 0 <= s.Of(name).maxRequests && 2 <= s.Of(name).windowSeconds
    ensures Serial(steps) && ClockOf(steps) <= now
    ensures var b := Run(Ledger(map[], []), s, steps).buckets;
      && VerdictOf(b, s, Request(name, identifier, now)) == Some(Limited(wait))
      && VerdictOf(b, s, Request(name, identifier, now + Seconds(wait))) == Some(Limited(1))
  {
    hide *;
    now, wait := 500_000, s.Of(name).windowSeconds - 1;
    steps := Burst(name, identifier, now, s.Of(name).maxRequests);
    HalfASecondIn(s, name, identifier);
    FilledByBurst(s, name, identifier, now);
    RefusalSays(s, steps, name, identifier, now);
    RefusalSays(s, steps, name, identifier, now + Seconds(wait));
  }

  /**
   Half a second into the first window the rest of it is told as one second too little, and that much later the window
   still runs.
   */
  lemma HalfASecondIn(s: Settings, name: Name, identifier: string)
    requires 2 <= s.Of(name).windowSeconds
    ensures var now, wait := 500_000, s.Of(name).windowSeconds - 1;
      var k := KeyAt(s, name, identifier, now);
      && KeyAt(s, name, identifier, now + Seconds(wait)) == k
      && now <= now + Seconds(wait)
      && RetryAfter(EndOf(s, k), now) == wait
      && RetryAfter(EndOf(s, k), now + Seconds(wait)) == 1
  {
    var w := s.Of(name).windowSeconds;
    assert WholeSeconds(500_000) == 0 && WholeSeconds(500_000 + Seconds(w - 1)) == w - 1;
    SmallModulus(0, w);
    SmallModulus(w - 1, w);
  }

  lemma RefusalSays(s: Settings, steps: seq<Step>, name: Name, identifier: string, now: Instant)
    requires !name.Login? && Serial(steps) && ClockOf(steps) <= now
    requires var l := Run(Ledger(map[], []), s, steps);
      InWindow(s, l.marks, KeyAt(s, name, identifier, now)) >= s.Of(name).maxRequests
    ensures var b := Run(Ledger(map[], []), s, steps).buckets;
      VerdictOf(b, s, Request(name, identifier, now)) ==
        Some(Limited(RetryAfter(EndOf(s, KeyAt(s, name, identifier, now)), now)))
  {
    SerialSweepsFirst(steps, name, identifier, now);
    hide Run, InWindow, WindowStart, Serial, RetryAfter, SweepsFirst;
    RefusedExactlyWhenFull(s, steps, name, identifier, now);
  }

  lemma FilledByBurst(s: Settings, name: Name, identifier: string, now: Instant)
    requires !name.Login? && 0 <= s.Of(name).maxRequests && 0 <= now
    ensures var steps := Burst(name, identifier, now, s.Of(name).maxRequests);
      && Serial(steps) && ClockOf(steps) <= now
      && InWindow(s, Run(Ledger(map[], []), s, steps).marks, KeyAt(s, name, identifier, now)) == s.Of(name).maxRequests
  {
    var m, k := s.Of(name).maxRequests, KeyAt(s, name, identifier, now);
    BurstAt(name, identifier, now, m);
    hide Burst, Run, InWindow, Between, WindowStart, Good;
    var elsewhere := k.(start := k.start + 1);
    NothingMarked(s, name, identifier, k, elsewhere, now, now + 1);
    EmptyGood(s);
    BurstAdmitted(Ledger(map[], []), s, 0, name, identifier, now, m, elsewhere, now, now + 1);
  }

  // --------------------------------------------------------------- lockout

  /** An account is refused exactly when the window already holds the limit of failures since its last success. */
  lemma {:induction false} LockedOutExactly(s: Settings, steps: seq<Step>, identifier: string, correct: bool,
        began: Instant, ended: Instant)
    requires Serial(steps) && ClockOf(steps) <= began
    ensures var l := Run(Ledger(map[], []), s, steps);
      VerdictOf(l.buckets, s, LoginTry(identifier, correct, began, ended)).value.Limited?
      <==> InWindow(s, l.marks, KeyAt(s, Login, identifier, began)) >= s.Of(Login).maxRequests
  {
    FailuresAreCounted(s, steps, identifier, began);
  }

  /** A success leaves the account with no failures in any window. */
  lemma SuccessWipesTheSlate(l: Ledger, s: Settings, step: Step, k: BucketKey)
    requires step.LoginTry? && step.correct && VerdictOf(l.buckets, s, step) == Some(Admitted)
    requires k.name.Login? && k.identifier == step.identifier
    ensures k !in Next(l, s, step).buckets && InWindow(s, Next(l, s, step).marks, k) == 0
  {
    InWindowWithout(s, l.marks, Login, step.identifier, k);
  }

  ghost predicate OnlySuccesses(steps: seq<Step>, identifier: string) {
    forall i :: 0 <= i < |steps| && steps[i].LoginTry? && steps[i].identifier == identifier ==> steps[i].correct
  }

  predicate NoAccountRow(b: Buckets, identifier: string) {
    forall k :: k in b ==> !(k.name.Login? && k.identifier == identifier)
  }

  lemma {:induction false} SuccessesLeaveNoRow(s: Settings, steps: seq<Step>, identifier: string)
    requires Serial(steps) && OnlySuccesses(steps, identifier)
    ensures NoAccountRow(Run(Ledger(map[], []), s, steps).buckets, identifier)
  {
    if steps != [] {
      var n := |steps| - 1;
      SuccessesLeaveNoRow(s, steps[..n], identifier);
      assert steps[n].Timed();
    }
  }

  /** Someone who only ever signs in correctly is never refused by the account limit, if the limit admits anyone. */
  lemma CorrectLoginsNeverRefused(s: Settings, steps: seq<Step>, identifier: string, began: Instant, ended: Instant)
    requires Serial(steps) && OnlySuccesses(steps, identifier)
    ensures VerdictOf(Run(Ledger(map[], []), s, steps).buckets, s, LoginTry(identifier, true, began, ended)) ==
      Some(Admitted)
      <==> 0 < s.Of(Login).maxRequests
  {
    SuccessesLeaveNoRow(s, steps, identifier);
  }

  // ------------------------------------------------------------- sweeping rows

  function WithoutSweeps(steps: seq<Step>): seq<Step> {
    if steps == [] then [] else
    var rest := WithoutSweeps(steps[..|steps| - 1]);
    if steps[|steps| - 1].Sweep? then rest else rest + [steps[|steps| - 1]]
  }

  /** `c` is `b` less some rows whose window is over. */
  ghost predicate SweptFrom(b: Buckets, c: Buckets, s: Settings, clock: Instant) {
    && (forall k :: k in c ==> k in b && c[k] == b[k])
    && (forall k :: k in b && k !in c ==> EndOf(s, k) < clock)
    && (forall k :: k in b ==> b[k].expires == EndOf(s, k))
  }

  lemma SweptStep(b: Buckets, c: Buckets, s: Settings, clock: Instant, step: Step)
    requires SweptFrom(b, c, s, clock) && 0 <= clock <= step.First() && step.Timed()
    ensures VerdictOf(b, s, step) == VerdictOf(c, s, step)
    ensures SweptFrom(if step.Sweep? then b else Table(b, s, step), Table(c, s, step), s, step.Last())
  {
    hide WindowStart;
    match step
    case Request(name, id, now) => WindowContains(s, name, id, now);
    case LoginTry(id, _, began, ended) =>
      WindowContains(s, Login, id, began);
      WindowContains(s, Login, id, ended);
    case Sweep(_) =>
  }

  lemma {:induction false} SweptRuns(s: Settings, steps: seq<Step>)
    requires Serial(steps)
    ensures SweptFrom(Run(Ledger(map[], []), s, WithoutSweeps(steps)).buckets, Run(Ledger(map[], []), s, steps).buckets,
      s, ClockOf(steps))
    ensures 0 <= ClockOf(steps)
  {
    if steps != [] {
      var n := |steps| - 1;
      SweptRuns(s, steps[..n]);
      assert steps[n].Timed();
      var kept := Run(Ledger(map[], []), s, WithoutSweeps(steps[..n]));
      SweptStep(kept.buckets, Run(Ledger(map[], []), s, steps[..n]).buckets, s, ClockOf(steps[..n]), steps[n]);
      if !steps[n].Sweep? {
        var rest := WithoutSweeps(steps[..n]);
        assert (rest + [steps[n]])[..|rest|] == rest;
      }
    }
  }

  /** Wherever sweeps are interleaved, the next request or login gets the same verdict as if none had run. */
  lemma SweepsInvisible(s: Settings, steps: seq<Step>, step: Step)
    requires Serial(steps) && step.Timed() && ClockOf(steps) <= step.First()
    ensures VerdictOf(Run(Ledger(map[], []), s, steps).buckets, s, step)
         == VerdictOf(Run(Ledger(map[], []), s, WithoutSweeps(steps)).buckets, s, step)
  {
    SweptRuns(s, steps);
    hide Run, SweptFrom, VerdictOf, Table;
    SweptStep(Run(Ledger(map[], []), s, WithoutSweeps(steps)).buckets, Run(Ledger(map[], []), s, steps).buckets, s,
      ClockOf(steps), step);
  }
}
