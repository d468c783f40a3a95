/** Vocabulary shared by every component: optional values, identifiers, stable error codes and the clock. */
module Base {

  datatype Option<+T> = None | Some(value: T)

  type UserId = nat
  type Key = string

  /** The error codes of the API contract that the modelled operations can answer with. */
  datatype Code =
    | WorkspaceNotConfigured
    | UserDisabled
    | AlreadyPunchedIn
    | NoActiveSession
    | DuplicateRequest
    | Conflict
    | InvalidCoordinates
    | AccuracyTooLow
    | OutsideGeofence
    | ImpossibleMovement
    | RateLimited
    | InvalidCredentials
    | TokenInvalid
    | TokenExpired
    | NotAuthenticated
    | Forbidden
    | NotFound

  /** The codes a location reading can be refused with; a refusal with one of them is recorded. */
  predicate IsReadingCode(c: Code) {
    c.InvalidCoordinates? || c.AccuracyTooLow? || c.OutsideGeofence? || c.ImpossibleMovement?
  }

  function Max(a: int, b: int): int { if a < b then b else a }

  function Min(a: int, b: int): int { if b < a then b else a }
}

/** Instants are microseconds since the Unix epoch; dates are proleptic Gregorian ordinals (Monday is 1 modulo 7). */
module Clock {
  import opened Base

  type Instant = int
  type Date = int

  function Seconds(n: int): Instant { n * 1_000_000 }

  function Hours(n: int): Instant { n * 3_600_000_000 }

  function Days(n: int): Instant { n * 86_400_000_000 }

  const UNIX_EPOCH_ORDINAL: int := 719_163

  /** `int(delta.total_seconds())`: whole seconds, truncated toward zero. */
  function WholeSeconds(micros: int): (s: int)
    ensures 0 <= micros ==> Seconds(s) <= micros < Seconds(s + 1) && 0 <= s
    ensures micros <= 0 ==> Seconds(s) >= micros > Seconds(s - 1) && s <= 0
  {
    if 0 <= micros then micros / 1_000_000 else -((-micros) / 1_000_000)
  }

  /** The workspace-local calendar date of an instant, for a zone at a fixed `offset` from UTC. */
  function LocalDate(t: Instant, offset: int): (d: Date)
    ensures Days(d - UNIX_EPOCH_ORDINAL) <= t + offset < Days(d - UNIX_EPOCH_ORDINAL + 1)
  {
    (t + offset) / 86_400_000_000 + UNIX_EPOCH_ORDINAL
  }

  /** Minutes since local midnight, seconds dropped. */
  function LocalMinute(t: Instant, offset: int): (m: int)
    ensures 0 <= m < 1440
  {
    ((t + offset) % 86_400_000_000) / 60_000_000
  }

  /** The first instant of a local date. */
  function StartOf(d: Date, offset: int): Instant {
    Days(d - UNIX_EPOCH_ORDINAL) - offset
  }

  lemma LocalDateMonotone(s: Instant, t: Instant, offset: int)
    requires s <= t
    ensures LocalDate(s, offset) <= LocalDate(t, offset)
  {
  }

  /** `date.weekday()`: Monday is 0. */
  function Weekday(d: Date): (w: int)
    ensures 0 <= w < 7
  {
    (d + 6) % 7
  }

  predicate IsWeekday(d: Date) { Weekday(d) < 5 }

  /** The epoch fell on a Thursday, and the weekdays follow one another from there on. */
  lemma WeekdayOfInstant(t: Instant, offset: int)
    ensures Weekday(LocalDate(0, 0)) == 3
    ensures Weekday(LocalDate(t + Days(1), offset)) == (Weekday(LocalDate(t, offset)) + 1) % 7
    ensures LocalDate(t + Days(1), offset) == LocalDate(t, offset) + 1
  {
  }

  lemma UnitsAgree(n: int)
    ensures Days(n) == Hours(24 * n) && Hours(n) == Seconds(3600 * n) && Seconds(n) == 1_000_000 * n
  {
  }

  /** The minute of the day counts whole minutes since its local date began. */
  lemma MinuteOfDay(t: Instant, offset: int)
    ensures var midnight := StartOf(LocalDate(t, offset), offset);
      Seconds(60 * LocalMinute(t, offset)) <= t - midnight < Seconds(60 * (LocalMinute(t, offset) + 1))
  {
  }
}
