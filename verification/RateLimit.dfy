/** Fixed-window counters: the bucket table, the limiter that changes it, and the log its counts are compared with. */
module RateLimit {
  import opened Base
  import opened Clock

  datatype Policy = Policy(maxRequests: int, windowSeconds: int)

  /** The policy names that prefix bucket keys. */
  datatype Name = Login | LoginIp | Register | PunchRate | Global

  /** The configured limits; one policy per name. */
  datatype SettingsRow = SettingsRow(login: Policy, loginIp: Policy, register: Policy, punch: Policy, global: Policy) {
    function Of(name: Name): Policy {
      match name
      case Login => login
      case LoginIp => loginIp
      case Register => register
      case PunchRate => punch
      case Global => global
    }

    predicate Valid() { forall n: Name :: 0 < Of(n).windowSeconds }
  }

  type Settings = s: SettingsRow | s.Valid()
    witness SettingsRow(Policy(5, 900), Policy(60, 900), Policy(30, 900), Policy(10, 60), Policy(300, 60))

  /** Each name's windows have the length of its own policy, whatever the others are. */
  lemma OwnPolicy(row: SettingsRow, name: Name, p: Policy)
    ensures row.(login := p).Of(name) == if name == Login then p else row.Of(name)
    ensures row.(loginIp := p).Of(name) == if name == LoginIp then p else row.Of(name)
    ensures row.(register := p).Of(name) == if name == Register then p else row.Of(name)
    ensures row.(punch := p).Of(name) == if name == PunchRate then p else row.Of(name)
    ensures row.(global := p).Of(name) == if name == Global then p else row.Of(name)
  {
  }

  /** Any limits go with windows of a second or more, and none with an empty window. */
  lemma WindowsAdmitted(row: SettingsRow)
    ensures (forall name: Name :: 1 <= row.Of(name).windowSeconds) ==> row.Valid()
    ensures (exists name: Name :: row.Of(name).windowSeconds <= 0) ==> !row.Valid()
  {
  }

  /** `start` is the window's first second since the epoch. */
  datatype BucketKey = BucketKey(name: Name, identifier: string, start: int)

  datatype Bucket = Bucket(count: int, expires: Instant)

  type Buckets = map<BucketKey, Bucket>

  datatype Verdict = Admitted | Limited(retryAfter: int)

  function WindowStart(now: Instant, windowSeconds: int): int
    requires 0 < windowSeconds
  {
    var epochSeconds := WholeSeconds(now);
    epochSeconds - epochSeconds % windowSeconds
  }

  function KeyAt(s: Settings, name: Name, identifier: string, now: Instant): BucketKey {
    BucketKey(name, identifier, WindowStart(now, s.Of(name).windowSeconds))
  }

  /** When the window of a key ends. */
  function EndOf(s: Settings, k: BucketKey): Instant { Seconds(k.start + s.Of(k.name).windowSeconds) }

  function RetryAfter(expires: Instant, now: Instant): int { Max(1, WholeSeconds(expires - now)) }

  function CountAt(b: Buckets, k: BucketKey): int { if k in b then b[k].count else 0 }

  /** The upsert: a first hit creates the window's row, later ones increment it. */
  function Hit(b: Buckets, s: Settings, k: BucketKey): Buckets {
    b[k := if k in b then b[k].(count := b[k].count + 1) else Bucket(1, EndOf(s, k))]
  }

  /** A request beyond the limit raises before the commit, so its hit is rolled back. */
  function Enforced(b: Buckets, s: Settings, name: Name, identifier: string, now: Instant): (Buckets, Verdict) {
    var k := KeyAt(s, name, identifier, now);
    var hit := Hit(b, s, k);
    if hit[k].count > s.Of(name).maxRequests then (b, Limited(RetryAfter(EndOf(s, k), now))) else (hit, Admitted)
  }

  /** Refuses an account whose window is already used up, without consuming anything. */
  function Within(b: Buckets, s: Settings, identifier: string, now: Instant): Verdict {
    var k := KeyAt(s, Login, identifier, now);
    if CountAt(b, k) >= s.Of(Login).maxRequests then Limited(RetryAfter(EndOf(s, k), now)) else Admitted
  }

  function Cleared(b: Buckets, name: Name, identifier: string): Buckets {
    map k | k in b && !(k.name == name && k.identifier == identifier) :: b[k]
  }

  function Swept(b: Buckets, now: Instant): Buckets {
    map k | k in b && !(b[k].expires < now) :: b[k]
  }

  /** The login handler around the credential check; the check itself takes from `now` to `later`. */
  function LoggedIn(b: Buckets, s: Settings, identifier: string, correct: bool, now: Instant,
        later: Instant): (Buckets, Verdict) {
    var verdict := Within(b, s, identifier, now);
    if verdict.Limited? then (b, verdict)
    else if correct then (Cleared(b, Login, identifier), Admitted)
    else (Hit(b, s, KeyAt(s, Login, identifier, later)), Admitted)
  }

  /** The bucket table and the operations that change it. */
  class Limiter {
    const settings: Settings
    var buckets: Buckets

    constructor (settings: Settings)
      ensures this.settings == settings && buckets == map[]
    {
      this.settings := settings;
      buckets := map[];
    }

    method RegisterHit(name: Name, identifier: string, now: Instant) returns (count: int, retryAfter: int)
      modifies this
      ensures var k := KeyAt(settings, name, identifier, now);
        && buckets == Hit(old(buckets), settings, k)
        && count == buckets[k].count
        && retryAfter == RetryAfter(EndOf(settings, k), now)
    {
      var windowStart := WindowStart(now, settings.Of(name).windowSeconds);
      var expiresAt := Seconds(windowStart + settings.Of(name).windowSeconds);
      var k := BucketKey(name, identifier, windowStart);
      if k in buckets {
        buckets := buckets[k := buckets[k].(count := buckets[k].count + 1)];
      } else {
        buckets := buckets[k := Bucket(1, expiresAt)];
      }
      count := buckets[k].count;
      retryAfter := Max(1, WholeSeconds(expiresAt - now));
    }

    /** `enforce` inside its transaction: raising discards what the transaction wrote. */
    method Enforce(name: Name, identifier: string, now: Instant) returns (verdict: Verdict)
      modifies this
      ensures (buckets, verdict) == Enforced(old(buckets), settings, name, identifier, now)
    {
      var committed := buckets;
      var count, retryAfter := RegisterHit(name, identifier, now);
      if count > settings.Of(name).maxRequests {
        buckets := committed;
        return Limited(retryAfter);
      }
      return Admitted;
    }

    method AssertWithin(identifier: string, now: Instant) returns (verdict: Verdict)
      ensures verdict == Within(buckets, settings, identifier, now)
    {
      var windowStart := WindowStart(now, settings.Of(Login).windowSeconds);
      var k := BucketKey(Login, identifier, windowStart);
      var count := 0;
      if k in buckets { count := buckets[k].count; }
      if count >= settings.Of(Login).maxRequests {
        var expiresAt := Seconds(windowStart + settings.Of(Login).windowSeconds);
        return Limited(Max(1, WholeSeconds(expiresAt - now)));
      }
      return Admitted;
    }

    method Clear(name: Name, identifier: string)
      modifies this
      ensures buckets == Cleared(old(buckets), name, identifier)
    {
      buckets := map k | k in buckets && (k.name != name || k.identifier != identifier) :: buckets[k];
    }

    method PurgeExpired(now: Instant) returns (deleted: nat)
      modifies this
      ensures buckets == Swept(old(buckets), now)
      ensures deleted == |old(buckets).Keys - buckets.Keys|
    {
      ghost var before := buckets;
      var expired := set k | k in buckets && buckets[k].expires < now;
      deleted := |expired|;
      buckets := map k | k in buckets && now <= buckets[k].expires :: buckets[k];
      assert before.Keys - buckets.Keys == expired;
    }

    /** Check the account window, run the credential check, then record the failure or clear the account. */
    method HandleLogin(identifier: string, correct: bool, now: Instant, later: Instant) returns (verdict: Verdict)
      modifies this
      ensures (buckets, verdict) == LoggedIn(old(buckets), settings, identifier, correct, now, later)
    {
      verdict := AssertWithin(identifier, now);
      if verdict.Limited? { return; }
      if !correct {
        var count, retryAfter := RegisterHit(Login, identifier, later);
        return;
      }
      Clear(Login, identifier);
    }
  }

  // ------------------------------------------------------------------- windows

  /** The current window has begun and has not ended. */
  lemma WindowContains(s: Settings, name: Name, identifier: string, now: Instant)
    requires 0 <= now
    ensures var k := KeyAt(s, name, identifier, now);
      Seconds(k.start) <= now < EndOf(s, k) && 0 <= k.start
  {
    var w := s.Of(name).windowSeconds;
    var e := WholeSeconds(now);
    assert 0 <= e % w < w && e % w <= e by { ModBound(e, w); }
  }

  lemma ModBound(e: int, w: int)
    requires 0 <= e && 0 < w
    ensures 0 <= e % w < w && e % w <= e
  {
    assert e == w * (e / w) + e % w;
    assert 0 <= e / w;
    assert 0 <= w * (e / w);
  }

  /** The advertised wait is between one second and the window, and one second more always reaches a new window. */
  lemma RetryAfterBounds(s: Settings, name: Name, identifier: string, now: Instant)
    requires 0 <= now
    ensures var end := EndOf(s, KeyAt(s, name, identifier, now));
      && 1 <= RetryAfter(end, now) <= s.Of(name).windowSeconds
      && now + Seconds(RetryAfter(end, now) + 1) > end
  {
    WindowContains(s, name, identifier, now);
  }

  /** The wait a refusal tells is the whole seconds left of the current window, and never none. */
  lemma WaitTold(b: Buckets, s: Settings, step: Step, wait: int)
    requires step.Timed() && VerdictOf(b, s, step) == Some(Limited(wait))
    ensures var w := if step.Request? then s.Of(step.name).windowSeconds else s.Of(Login).windowSeconds;
      var left := Seconds(WindowStart(step.First(), w) + w) - step.First();
      && 0 < left <= Seconds(w)
      && wait == (if left < Seconds(1) then 1 else left / 1_000_000)
  {
    hide WindowStart;
    match step
    case Request(name, identifier, now) => WindowContains(s, name, identifier, now);
    case LoginTry(identifier, _, began, _) => WindowContains(s, Login, identifier, began);
    case Sweep(_) =>
  }

  /** Waiting exactly the advertised seconds reaches the end of the window only when nothing was truncated away. */
  lemma AdvertisedWaitSuffices(s: Settings, name: Name, identifier: string, now: Instant)
    requires 0 <= now
    ensures var end := EndOf(s, KeyAt(s, name, identifier, now));
      now + Seconds(RetryAfter(end, now)) >= end <==> (end - now <= Seconds(1) || (end - now) % 1_000_000 == 0)
  {
    WindowContains(s, name, identifier, now);
  }

  /** Every instant within `windowSeconds` after `from` falls in the window of `from` or in the next one. */
  lemma {:induction false} TwoWindowsCover(w: int, from: Instant, at: Instant)
    requires 0 < w && 0 <= from <= at < from + Seconds(w)
    ensures WindowStart(at, w) == WindowStart(from, w) || WindowStart(at, w) == WindowStart(from, w) + w
  {
    var e, f := WholeSeconds(from), WholeSeconds(at);
    assert e <= f <= e + w;
    NextWindow(e, f, w);
  }

  lemma {:induction false} NextWindow(e: int, f: int, w: int)
    requires 0 < w && 0 <= e <= f <= e + w
    ensures f - f % w == e - e % w || f - f % w == e - e % w + w
  {
    Euclid(e, w);
    Euclid(f, w);
    NextMultiple(w, e / w, e % w, f / w, f % w);
  }

  lemma Euclid(e: int, w: int)
    requires 0 < w
    ensures e == w * (e / w) + e % w && 0 <= e % w < w
  {
  }

  /** Two numbers at most `w` apart lie on the same or on neighbouring multiples of `w`. */
  lemma {:induction false} NextMultiple(w: int, q: int, r: int, p: int, t: int)
    requires 0 <= r < w && 0 <= t < w
    requires w * q + r <= w * p + t <= w * q + r + w
    ensures w * p == w * q || w * p == w * q + w
  {
    Distribute(w, q, p - q);
    if p - q < 0 { ScaleMonotone(p - q, -1, w); }
    if p - q > 1 { ScaleMonotone(2, p - q, w); }
  }

  /** A larger number on another multiple of `w` lies on a later one. */
  lemma {:induction false} LaterMultiple(w: int, q: int, r: int, p: int, t: int)
    requires 0 <= r < w && 0 <= t < w
    requires w * q + r <= w * p + t && w * p != w * q
    ensures w * q + w <= w * p
  {
    Distribute(w, q, p - q);
    if p - q < 0 { ScaleMonotone(p - q, -1, w); }
    if p - q > 0 { ScaleMonotone(1, p - q, w); }
  }

  lemma Distribute(w: int, q: int, d: int)
    ensures w * (q + d) == w * q + w * d
  {
  }

  lemma ScaleMonotone(a: int, b: int, w: int)
    requires 0 < w && a <= b
    ensures w * a <= w * b
  {
  }

  // ----------------------------------------------------------------------- log

  /** A counted request: one let through by a limit, or a failed login. */
  datatype Mark = Mark(name: Name, identifier: string, at: Instant)

  /** The table with the marks it is meant to count; a successful login forgets the account's marks. */
  datatype Ledger = Ledger(buckets: Buckets, marks: seq<Mark>)

  predicate Falls(s: Settings, m: Mark, k: BucketKey) { KeyAt(s, m.name, m.identifier, m.at) == k }

  function InWindow(s: Settings, marks: seq<Mark>, k: BucketKey): nat {
    if marks == [] then 0 else
    InWindow(s, marks[..|marks| - 1], k) + (if Falls(s, marks[|marks| - 1], k) then 1 else 0)
  }

  function Without(marks: seq<Mark>, name: Name, identifier: string): seq<Mark> {
    if marks == [] then [] else
    var rest := Without(marks[..|marks| - 1], name, identifier);
    var last := marks[|marks| - 1];
    if last.name == name && last.identifier == identifier then rest else rest + [last]
  }

  datatype Step =
    | Request(name: Name, identifier: string, now: Instant)
    | LoginTry(identifier: string, correct: bool, began: Instant, ended: Instant)
    | Sweep(at: Instant)
  {
    predicate Timed() {
      match this
      case Request(name, _, now) => !name.Login? && 0 <= now
      case LoginTry(_, _, began, ended) => 0 <= began <= ended
      case Sweep(at) => 0 <= at
    }

    function First(): Instant {
      match this case Request(_, _, now) => now case LoginTry(_, _, began, _) => began case Sweep(at) => at
    }

    function Last(): Instant {
      match this case Request(_, _, now) => now case LoginTry(_, _, _, ended) => ended case Sweep(at) => at
    }
  }

  function VerdictOf(b: Buckets, s: Settings, step: Step): Option<Verdict> {
    match step
    case Request(name, id, now) => Some(Enforced(b, s, name, id, now).1)
    case LoginTry(id, correct, began, ended) => Some(LoggedIn(b, s, id, correct, began, ended).1)
    case Sweep(_) => None
  }

  function Table(b: Buckets, s: Settings, step: Step): Buckets {
    match step
    case Request(name, id, now) => Enforced(b, s, name, id, now).0
    case LoginTry(id, correct, began, ended) => LoggedIn(b, s, id, correct, began, ended).0
    case Sweep(at) => Swept(b, at)
  }

  function Marked(l: Ledger, s: Settings, step: Step): seq<Mark> {
    if VerdictOf(l.buckets, s, step) != Some(Admitted) then l.marks else
    match step
    case Request(name, id, now) => l.marks + [Mark(name, id, now)]
    case LoginTry(id, correct, _, ended) =>
      if correct then Without(l.marks, Login, id) else l.marks + [Mark(Login, id, ended)]
    case Sweep(_) => l.marks
  }

  function Next(l: Ledger, s: Settings, step: Step): Ledger { Ledger(Table(l.buckets, s, step), Marked(l, s, step)) }

  function Run(l: Ledger, s: Settings, steps: seq<Step>): Ledger {
    if steps == [] then l else Next(Run(l, s, steps[..|steps| - 1]), s, steps[|steps| - 1])
  }

  /** Steps are serialised on a clock that does not run backwards. */
  ghost predicate Serial(steps: seq<Step>) {
    && (forall i :: 0 <= i < |steps| ==> steps[i].Timed())
    && (forall i, j :: 0 <= i < j < |steps| ==> steps[i].Last() <= steps[j].First())
  }

  // ----------------------------------------------------------------- invariant

  /** A stored count is the number of marks in its window; a missing row means none, or a window already over. */
  ghost predicate Faithful(l: Ledger, s: Settings, clock: Instant) {
    && (forall k :: k in l.buckets ==> l.buckets[k] == Bucket(InWindow(s, l.marks, k), EndOf(s, k)))
    && (forall k :: k !in l.buckets ==> InWindow(s, l.marks, k) == 0 || EndOf(s, k) < clock)
  }

  ghost predicate Bounded(l: Ledger, s: Settings) {
    forall k :: InWindow(s, l.marks, k) <= Max(0, s.Of(k.name).maxRequests)
  }

  ghost predicate Past(l: Ledger, clock: Instant) {
    forall i :: 0 <= i < |l.marks| ==> 0 <= l.marks[i].at <= clock
  }

  ghost predicate Good(l: Ledger, s: Settings, clock: Instant) {
    Faithful(l, s, clock) && Bounded(l, s) && Past(l, clock) && 0 <= clock
  }

  lemma InWindowAppend(s: Settings, marks: seq<Mark>, m: Mark, k: BucketKey)
    ensures InWindow(s, marks + [m], k) == InWindow(s, marks, k) + (if Falls(s, m, k) then 1 else 0)
  {
    assert (marks + [m])[..|marks|] == marks;
  }

  lemma {:induction false} InWindowWithout(s: Settings, marks: seq<Mark>, name: Name, identifier: string, k: BucketKey)
    ensures InWindow(s, Without(marks, name, identifier), k)
         == if k.name == name && k.identifier == identifier then 0 else InWindow(s, marks, k)
  {
    if marks != [] {
      var n := |marks| - 1;
      InWindowWithout(s, marks[..n], name, identifier, k);
      InWindowAppend(s, Without(marks[..n], name, identifier), marks[n], k);
    }
  }

  lemma {:induction false} WithoutPast(marks: seq<Mark>, name: Name, identifier: string, clock: Instant)
    requires forall i :: 0 <= i < |marks| ==> 0 <= marks[i].at <= clock
    ensures forall i :: 0 <= i < |Without(marks, name, identifier)| ==>
      0 <= Without(marks, name, identifier)[i].at <= clock
  {
    if marks != [] { WithoutPast(marks[..|marks| - 1], name, identifier, clock); }
  }

  /** In the current window the stored count is exact. */
  lemma CurrentCountExact(l: Ledger, s: Settings, clock: Instant, name: Name, identifier: string, now: Instant)
    requires Good(l, s, clock) && clock <= now
    ensures var k := KeyAt(s, name, identifier, now); CountAt(l.buckets, k) == InWindow(s, l.marks, k)
  {
    WindowContains(s, name, identifier, now);
  }

  /** Counting one more request of the current window, when the limit still allows it. */
  lemma HitGood(l: Ledger, s: Settings, clock: Instant, name: Name, identifier: string, now: Instant)
    requires Good(l, s, clock) && clock <= now
    requires InWindow(s, l.marks, KeyAt(s, name, identifier, now)) < s.Of(name).maxRequests
    ensures var hit := Hit(l.buckets, s, KeyAt(s, name, identifier, now));
      Good(Ledger(hit, l.marks + [Mark(name, identifier, now)]), s, now)
  {
    var key := KeyAt(s, name, identifier, now);
    CurrentCountExact(l, s, clock, name, identifier, now);
    hide InWindow, WindowStart;
    forall k
      ensures InWindow(s, l.marks + [Mark(name, identifier, now)], k) ==
        InWindow(s, l.marks, k) + (if k == key then 1 else 0)
    {
      InWindowAppend(s, l.marks, Mark(name, identifier, now), k);
    }
  }

  lemma GoodLater(l: Ledger, s: Settings, clock: Instant, later: Instant)
    requires Good(l, s, clock) && clock <= later
    ensures Good(l, s, later)
  {
  }

  lemma RequestGood(l: Ledger, s: Settings, clock: Instant, step: Step)
    requires Good(l, s, clock) && clock <= step.First() && step.Request?
    ensures Good(Next(l, s, step), s, step.Last())
  {
    hide Faithful, Bounded, Past, WindowStart;
    CurrentCountExact(l, s, clock, step.name, step.identifier, step.now);
    if VerdictOf(l.buckets, s, step) == Some(Admitted) {
      HitGood(l, s, clock, step.name, step.identifier, step.now);
    } else {
      GoodLater(l, s, clock, step.now);
    }
  }

  lemma ClearGood(l: Ledger, s: Settings, clock: Instant, identifier: string)
    requires Good(l, s, clock)
    ensures Good(Ledger(Cleared(l.buckets, Login, identifier), Without(l.marks, Login, identifier)), s, clock)
  {
    forall k { InWindowWithout(s, l.marks, Login, identifier, k); }
    WithoutPast(l.marks, Login, identifier, clock);
  }

  /** A window that begins after every mark is empty, so a failure recorded in it is its first. */
  lemma {:induction false} LaterWindowEmpty(s: Settings, marks: seq<Mark>, clock: Instant, k: BucketKey)
    requires forall i :: 0 <= i < |marks| ==> 0 <= marks[i].at <= clock
    requires clock < Seconds(k.start)
    ensures InWindow(s, marks, k) == 0
  {
    if marks != [] {
      var m := marks[|marks| - 1];
      LaterWindowEmpty(s, marks[..|marks| - 1], clock, k);
      WindowContains(s, m.name, m.identifier, m.at);
    }
  }

  /** The window in which a failure is recorded still has room, even if it is not the one that was checked. */
  lemma {:induction false} RoomWhereRecorded(l: Ledger, s: Settings, clock: Instant, identifier: string, began: Instant,
        ended: Instant)
    requires Good(l, s, clock) && clock <= began <= ended
    requires InWindow(s, l.marks, KeyAt(s, Login, identifier, began)) < s.Of(Login).maxRequests
    ensures InWindow(s, l.marks, KeyAt(s, Login, identifier, ended)) < s.Of(Login).maxRequests
  {
    var w := s.Of(Login).windowSeconds;
    var a, b := KeyAt(s, Login, identifier, began), KeyAt(s, Login, identifier, ended);
    if a != b {
      WindowsAdvance(began, ended, w);
      WindowContains(s, Login, identifier, began);
      LaterWindowEmpty(s, l.marks, clock, b);
    }
  }

  lemma {:induction false} WindowsAdvance(t: Instant, u: Instant, w: int)
    requires 0 < w && 0 <= t <= u && WindowStart(t, w) != WindowStart(u, w)
    ensures t < Seconds(WindowStart(u, w))
  {
    var e, f := WholeSeconds(t), WholeSeconds(u);
    Euclid(e, w);
    Euclid(f, w);
    LaterMultiple(w, e / w, e % w, f / w, f % w);
  }

  lemma {:induction false} LoginGood(l: Ledger, s: Settings, clock: Instant, step: Step)
    requires Good(l, s, clock) && clock <= step.First() && step.LoginTry? && step.Timed()
    ensures Good(Next(l, s, step), s, step.Last())
  {
    hide Faithful, Bounded, Past, WindowStart, Without, Cleared;
    CurrentCountExact(l, s, clock, Login, step.identifier, step.began);
    GoodLater(l, s, clock, step.began);
    if VerdictOf(l.buckets, s, step) == Some(Admitted) {
      if step.correct {
        ClearGood(l, s, step.began, step.identifier);
        GoodLater(Next(l, s, step), s, step.began, step.ended);
      } else {
        RoomWhereRecorded(l, s, clock, step.identifier, step.began, step.ended);
        HitGood(l, s, step.began, Login, step.identifier, step.ended);
      }
    } else {
      GoodLater(l, s, step.began, step.ended);
    }
  }

  lemma {:induction false} StepGood(l: Ledger, s: Settings, clock: Instant, step: Step)
    requires Good(l, s, clock) && clock <= step.First() && step.Timed()
    ensures Good(Next(l, s, step), s, step.Last())
  {
    match step
    case Request(_, _, _) => RequestGood(l, s, clock, step);
    case LoginTry(_, _, _, _) => LoginGood(l, s, clock, step);
    case Sweep(at) =>
      GoodLater(l, s, clock, at);
  }

  /** The latest instant a run has reached. */
  function ClockOf(steps: seq<Step>): Instant { if steps == [] then 0 else steps[|steps| - 1].Last() }

  lemma {:induction false} RunGood(s: Settings, steps: seq<Step>)
    requires Serial(steps)
    ensures Good(Run(Ledger(map[], []), s, steps), s, ClockOf(steps))
  {
    hide Good, Next;
    if steps == [] {
      EmptyGood(s);
    } else {
      var n := |steps| - 1;
      RunGood(s, steps[..n]);
      assert ClockOf(steps[..n]) <= steps[n].First() by { if n == 0 { assert steps[0].Timed(); } }
      StepGood(Run(Ledger(map[], []), s, steps[..n]), s, ClockOf(steps[..n]), steps[n]);
    }
  }

  lemma EmptyGood(s: Settings)
    ensures Good(Ledger(map[], []), s, 0)
  {
  }
}
