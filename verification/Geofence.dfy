/** Server-side validation of one location reading, including the movement check against the previous accepted punch. */
module Geofence {
  import opened Base
  import opened Clock

  datatype Place = Place(lat: real, lon: real)

  const EARTH_RADIUS: real := 6_371_008.8
  /** Rational bounds around half the circumference of the sphere, the largest great-circle distance. */
  const FARTHEST: real := 3.1416 * EARTH_RADIUS
  const NEARLY_FARTHEST: real := 3.1415 * EARTH_RADIUS

  /** Great-circle distance. Only its range matters to the claims; trigonometry is not modelled. */
  type Metric = f: (Place, Place) -> real | forall a, b :: 0.0 <= f(a, b) <= FARTHEST
    witness (a: Place, b: Place) => 0.0

  /** A metric under which every place is the same place. */
  function NoDistance(a: Place, b: Place): real { 0.0 }

  /** The policy columns of the workspace row. */
  datatype WorkspaceRow = WorkspaceRow(
    centre: Place,
    radius: int,
    accuracyThreshold: int,
    offset: int,
    startMinute: int,
    lateThreshold: int,
    autoCloseHours: int,
    maxSpeed: int,
    blockMovement: bool)
  {
    /** The check constraints of the table. */
    predicate Valid() {
      && 10 <= radius <= 5000
      && 5 <= accuracyThreshold <= 1000
      && 1 <= autoCloseHours <= 72
      && 10 <= maxSpeed <= 5000
    }
  }

  /** The extremes the table admits, and the first values it does not. */
  lemma ConstraintEdges(row: WorkspaceRow)
    ensures row.(radius := 10, accuracyThreshold := 5, autoCloseHours := 1, maxSpeed := 10).Valid()
    ensures row.(radius := 5000, accuracyThreshold := 1000, autoCloseHours := 72, maxSpeed := 5000).Valid()
    ensures row.radius in {9, 5001} || row.accuracyThreshold in {4, 1001} ==> !row.Valid()
    ensures row.autoCloseHours in {0, 73} || row.maxSpeed in {9, 5001} ==> !row.Valid()
  {
  }

  type Workspace = w: WorkspaceRow | w.Valid()
    witness WorkspaceRow(Place(0.0, 0.0), 10, 5, 0, 0, 0, 16, 300, false)

  datatype Speed = Finite(kmh: real) | Infinite {
    predicate Exceeds(limit: int) { Infinite? || kmh > limit as real }
  }

  /** Average speed implied by covering `distance` metres in `elapsed` microseconds. */
  function SpeedOf(distance: real, elapsed: int): Speed {
    if elapsed <= 0 then
      if distance > 0.0 then Infinite else Finite(0.0)
    else
      Finite(distance / (elapsed as real / 1_000_000.0) * 3.6)
  }

  datatype Flag = Movement(speed: Speed, elapsed: int, travelled: real)

  datatype Verdict = Verdict(code: Option<Code>, distance: Option<real>, flag: Option<Flag>) {
    predicate Accepted() { code.None? }
  }

  /** Where and when the previous accepted punch was made. */
  datatype Sighting = Sighting(place: Place, at: Instant)

  predicate WellFormed(p: Place) {
    -90.0 <= p.lat <= 90.0 && -180.0 <= p.lon <= 180.0
  }

  function Abs(x: real): real { if x < 0.0 then -x else x }

  predicate NullIsland(p: Place) {
    Abs(p.lat) < 0.000000001 && Abs(p.lon) < 0.000000001
  }

  /** The gates in order; the first one that fails decides. */
  function Validate(metric: Metric, ws: Workspace, place: Place, accuracy: real, now: Instant,
        previous: Option<Sighting>): (v: Verdict)
    ensures v.code.Some? ==> IsReadingCode(v.code.value)
  {
    if !WellFormed(place) || NullIsland(place) || accuracy <= 0.0 then
      Verdict(Some(InvalidCoordinates), None, None)
    else if accuracy > ws.accuracyThreshold as real then
      Verdict(Some(AccuracyTooLow), None, None)
    else
      var distance := metric(place, ws.centre);
      if distance > ws.radius as real then
        Verdict(Some(OutsideGeofence), Some(distance), None)
      else
        var flag := MovementFlag(metric, ws, place, now, previous);
        if flag.Some? && ws.blockMovement then
          Verdict(Some(ImpossibleMovement), Some(distance), flag)
        else
          Verdict(None, Some(distance), flag)
  }

  function MovementFlag(metric: Metric, ws: Workspace, place: Place, now: Instant,
        previous: Option<Sighting>): Option<Flag> {
    if previous.None? then None else
    var elapsed := now - previous.value.at;
    var travelled := metric(previous.value.place, place);
    var implied := SpeedOf(travelled, elapsed);
    if implied.Exceeds(ws.maxSpeed) then Some(Movement(implied, elapsed, travelled)) else None
  }

  /** A finite speed is the distance in kilometres over the time in hours; no time at all is infinitely fast. */
  lemma SpeedIsDistanceOverTime(distance: real, elapsed: int)
    requires 0.0 <= distance
    ensures 0 < elapsed ==> SpeedOf(distance, elapsed).Finite?
    ensures 0 < elapsed ==> SpeedOf(distance, elapsed).kmh * (elapsed as real / 3_600_000_000.0) == distance / 1000.0
    ensures elapsed <= 0 ==> (SpeedOf(distance, elapsed).Infinite? <==> distance > 0.0)
  {
    if 0 < elapsed {
      var seconds := elapsed as real / 1_000_000.0;
      var q := distance / seconds;
      assert q * seconds == distance;
      assert (q * 3.6) * (seconds / 3600.0) == (q * seconds) / 1000.0;
    }
  }

  /** Whether a movement between two sightings is implausible under a speed limit. */
  predicate TooFast(metric: Metric, limit: int, place: Place, now: Instant, previous: Option<Sighting>) {
    previous.Some? && SpeedOf(metric(previous.value.place, place), now - previous.value.at).Exceeds(limit)
  }

  /**
   In a time that passed, too fast means more kilometres than the limit allows in those hours; in none, any distance.
   */
  lemma TooFastMeans(metric: Metric, limit: int, place: Place, now: Instant, previous: Sighting)
    requires 0 <= limit
    ensures var travelled, elapsed := metric(previous.place, place), now - previous.at;
      TooFast(metric, limit, place, now, Some(previous)) <==>
        if 0 < elapsed then travelled / 1000.0 > limit as real * (elapsed as real / 3_600_000_000.0)
        else travelled > 0.0
    ensures !TooFast(metric, limit, place, now, None)
  {
    var travelled, elapsed := metric(previous.place, place), now - previous.at;
    if 0 < elapsed {
      SpeedIsDistanceOverTime(travelled, elapsed);
      FasterMeansFarther(SpeedOf(travelled, elapsed).kmh, limit as real, elapsed as real / 3_600_000_000.0);
    }
  }

  lemma FasterMeansFarther(speed: real, limit: real, hours: real)
    requires 0.0 < hours
    ensures speed > limit <==> speed * hours > limit * hours
  {
    assert (speed - limit) * hours == speed * hours - limit * hours;
    if speed > limit { PositiveProduct(speed - limit, hours); } else { NonNegativeProduct(limit - speed, hours); }
  }

  lemma NonNegativeProduct(a: real, b: real)
    requires 0.0 <= a && 0.0 < b
    ensures 0.0 <= a * b
  {
  }

  /** The coordinates lie in their ranges and are not the origin to within a billionth of a degree. */
  predicate Readable(p: Place, accuracy: real) {
    && -90.0 <= p.lat <= 90.0 && -180.0 <= p.lon <= 180.0
    && !(-0.000000001 < p.lat < 0.000000001 && -0.000000001 < p.lon < 0.000000001)
    && 0.0 < accuracy
  }

  /** A reading is accepted exactly when it passes every gate; movement counts only where it is set to block. */
  lemma AcceptedExactly(metric: Metric, ws: Workspace, place: Place, accuracy: real, now: Instant,
        previous: Option<Sighting>)
    ensures Validate(metric, ws, place, accuracy, now, previous).Accepted() <==>
      && Readable(place, accuracy)
      && accuracy <= ws.accuracyThreshold as real
      && metric(place, ws.centre) <= ws.radius as real
      && !(ws.blockMovement && TooFast(metric, ws.maxSpeed, place, now, previous))
  {
  }

  /** `w` is no stricter than `v` about the same place. */
  predicate Laxer(v: Workspace, w: Workspace) {
    && w.centre == v.centre && v.radius <= w.radius && v.accuracyThreshold <= w.accuracyThreshold
    && v.maxSpeed <= w.maxSpeed && (w.blockMovement ==> v.blockMovement)
  }

  /** Relaxing the policy never turns an accepted reading away, and never adds a flag. */
  lemma RelaxingAcceptsMore(metric: Metric, v: Workspace, w: Workspace, place: Place, accuracy: real, now: Instant,
        previous: Option<Sighting>)
    requires Laxer(v, w)
    ensures Validate(metric, v, place, accuracy, now, previous).Accepted() ==>
      Validate(metric, w, place, accuracy, now, previous).Accepted()
    ensures Validate(metric, v, place, accuracy, now, previous).Accepted() ==>
      (Validate(metric, w, place, accuracy, now, previous).flag.Some? ==>
        Validate(metric, v, place, accuracy, now, previous).flag.Some?)
  {
  }

  /**
   Each code is given exactly when its gate fails and all earlier ones passed, a flag exactly when the movement check
   was reached and failed; and the figures in the verdict are those of the reading.
   */
  lemma FirstFailingGate(metric: Metric, ws: Workspace, place: Place, accuracy: real, now: Instant,
        previous: Option<Sighting>)
    ensures var v := Validate(metric, ws, place, accuracy, now, previous);
      var readable := Readable(place, accuracy);
      var accurate := accuracy <= ws.accuracyThreshold as real;
      var inside := metric(place, ws.centre) <= ws.radius as real;
      var tooFast := TooFast(metric, ws.maxSpeed, place, now, previous);
      && (v.code == Some(InvalidCoordinates) <==> !readable)
      && (v.code == Some(AccuracyTooLow) <==> readable && !accurate)
      && (v.code == Some(OutsideGeofence) <==> readable && accurate && !inside)
      && (v.code == Some(ImpossibleMovement) <==> readable && accurate && inside && tooFast && ws.blockMovement)
      && (v.code == None <==> readable && accurate && inside && !(tooFast && ws.blockMovement))
      && (v.flag.Some? <==> readable && accurate && inside && tooFast)
      && v.distance == (if readable && accurate then Some(metric(place, ws.centre)) else None)
      && (v.flag.Some? ==>
            && v.flag.value.elapsed == now - previous.value.at
            && v.flag.value.travelled == metric(previous.value.place, place)
            && v.flag.value.speed == SpeedOf(v.flag.value.travelled, v.flag.value.elapsed))
  {
  }

  /** Nothing on the sphere can be far enough away to look implausible after `days` at `speed` km/h. */
  predicate RetentionOutlastsTravel(days: nat, speed: int) { days * speed >= 834 }

  /** Nor after any gap in which that speed would lead half way round the sphere. */
  lemma SlowOverLongGaps(distance: real, elapsed: int, speed: int)
    requires 0.0 <= distance <= FARTHEST && 0 < speed
    requires Days(834) <= speed * elapsed
    ensures !SpeedOf(distance, elapsed).Exceeds(speed)
  {
    PositiveFactor(speed, elapsed);
    var seconds := elapsed as real / 1_000_000.0;
    TravelBudget(speed, elapsed);
    DivideBound(distance * 3.6, speed as real, seconds);
    ScaleQuotient(distance, seconds);
  }

  lemma LongGapProduct(elapsed: int, days: nat, speed: int)
    requires 0 < speed && RetentionOutlastsTravel(days, speed) && Days(days) <= elapsed
    ensures Days(834) <= speed * elapsed
  {
    assert speed * (elapsed - Days(days)) >= 0;
    assert speed * (Days(days)) == Days(days * speed);
  }

  lemma PositiveFactor(a: int, b: int)
    requires 0 < a && 0 < a * b
    ensures 0 < b
  {
  }

  /** `speed` times the elapsed seconds, computed over the integers. */
  lemma TravelBudget(speed: int, elapsed: int)
    ensures (speed as real) * (elapsed as real / 1_000_000.0) == (speed * elapsed) as real / 1_000_000.0
  {
    assert (speed as real) * (elapsed as real) == (speed * elapsed) as real;
  }

  lemma ScaleQuotient(x: real, z: real)
    requires 0.0 < z
    ensures x / z * 3.6 == (x * 3.6) / z
  {
    var q := x / z;
    assert q * z == x;
    assert (q * 3.6) * z == x * 3.6;
  }

  lemma PositiveProduct(a: real, b: real)
    requires 0.0 < a && 0.0 < b
    ensures 0.0 < a * b
  {
  }

  lemma DivideBound(x: real, y: real, z: real)
    requires 0.0 < z && x <= y * z
    ensures x / z <= y
  {
    var q := x / z;
    assert q * z == x;
    if q > y { PositiveProduct(q - y, z); }
  }

  lemma DivideAbove(x: real, y: real, z: real)
    requires 0.0 < z && x > y * z
    ensures x / z > y
  {
    var q := x / z;
    assert q * z == x;
    if q < y { PositiveProduct(y - q, z); }
  }

  /** The far side of the sphere still looks implausible after any gap a little shorter than that, or none at all. */
  lemma FastOverShortGap(distance: real, elapsed: int, speed: int)
    requires 10 <= speed <= 5000 && speed * elapsed <= Days(833) + 5000 && NEARLY_FARTHEST <= distance
    ensures SpeedOf(distance, elapsed).Exceeds(speed)
  {
    if 0 < elapsed {
      var seconds := elapsed as real / 1_000_000.0;
      TravelBudget(speed, elapsed);
      DivideAbove(distance * 3.6, speed as real, seconds);
      ScaleQuotient(distance, seconds);
    }
  }

  /** A sighting from before a horizon long enough ago raises no flag, exactly as no sighting at all. */
  lemma OldSightingRaisesNoFlag(metric: Metric, ws: Workspace, place: Place, now: Instant, previous: Option<Sighting>,
        horizon: Instant)
    requires Days(834) <= ws.maxSpeed * (now - horizon)
    requires previous.Some? ==> previous.value.at <= horizon
    ensures MovementFlag(metric, ws, place, now, previous) == None
  {
    if previous.Some? {
      var travelled := metric(previous.value.place, place);
      LongerGapProduct(ws.maxSpeed, now - horizon, now - previous.value.at);
      SlowOverLongGaps(travelled, now - previous.value.at, ws.maxSpeed);
    }
  }

  lemma LongerGapProduct(speed: int, gap: int, longer: int)
    requires 0 < speed && gap <= longer
    ensures speed * gap <= speed * longer
  {
  }
}
