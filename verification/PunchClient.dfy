/** The page's punch pipeline: which idempotency key a request carries, and when a key is given up. */
module PunchClient {
  import opened Base
  import opened Geofence
  import opened Attendance

  /** Why no answer came: the request failed, the browser was offline by then, or something else answered. */
  datatype Trouble = NetworkDown | WentOffline | NotTheApi

  /** What awaiting the request yields: the server's answer, or no answer at all. */
  datatype Awaited = Answered(reply: Reply) | Unreachable(trouble: Trouble)

  datatype Phase = Idle | Locating | Verifying

  datatype LocationProblem = PermissionDenied | Unavailable | TimedOut | Unsupported | InsecureContext

  /** What capturing the position yields; a failure other than a geolocation error names no problem. */
  datatype Position = Fix(place: Place) | NoFix(problem: Option<LocationProblem>)

  datatype Failure =
    | Offline
    | Location(problem: LocationProblem)
    | NetworkError
    | ApiUnreachable
    | FromServer(code: Code)

  predicate IsStaleViewCode(c: Code) { c.AlreadyPunchedIn? || c.NoActiveSession? || c.DuplicateRequest? }

  /** The refusals after which the page makes a new key. */
  const SETTLING: set<Code> := {AlreadyPunchedIn, NoActiveSession, DuplicateRequest, OutsideGeofence, AccuracyTooLow,
                                InvalidCoordinates, ImpossibleMovement}

  /** Outcomes after which the next attempt is a new intent. */
  predicate Concludes(o: Awaited) {
    o.Answered? && (o.reply.Done? || IsStaleViewCode(o.reply.code) || IsReadingCode(o.reply.code))
  }

  function FailureOf(trouble: Trouble): Failure {
    match trouble
    case NetworkDown => NetworkError
    case WentOffline => Offline
    case NotTheApi => ApiUnreachable
  }

  function KeyFor(pending: Option<Key>, newKey: Key): Key { if pending.Some? then pending.value else newKey }

  function KeyAfter(pending: Option<Key>, o: Awaited): Option<Key> { if Concludes(o) then None else pending }

  class UsePunch {
    var pendingKey: Option<Key>
    var phase: Phase
    var failure: Option<Failure>
    var success: Option<Reply>

    constructor ()
      ensures pendingKey == None && phase == Idle && failure == None && success == None
    {
      pendingKey, phase, failure, success := None, Idle, None, None;
    }

    /** The part of `run` before the request: the key and position to send, unless the attempt stops here. */
    method Begin(online: bool, secure: bool, position: Position, newKey: Key) returns (send: Option<(Place, Key)>)
      modifies this
      ensures success == None
      ensures send.Some? <==> online && secure && position.Fix?
      ensures send.Some? ==> send.value.0 == position.place && Some(send.value.1) == pendingKey
      ensures pendingKey == if send.Some? then Some(KeyFor(old(pendingKey), newKey)) else old(pendingKey)
      ensures old(pendingKey).Some? ==> pendingKey == old(pendingKey)
      ensures old(pendingKey).None? ==> pendingKey == if send.Some? then Some(newKey) else None
      ensures failure == if !online then Some(Offline) else if !secure then Some(Location(InsecureContext))
                         else if position.Fix? then None
                         else Some(Location(if position.problem.Some? then position.problem.value else Unavailable))
      ensures phase == if send.Some? then Verifying else if online && secure then Idle else old(phase)
    {
      failure := None;
      success := None;
      if !online {
        failure := Some(Offline);
        return None;
      }
      if !secure {
        failure := Some(Location(InsecureContext));
        return None;
      }
      phase := Locating;
      if position.NoFix? {
        phase := Idle;
        match position.problem {
          case Some(problem) => failure := Some(Location(problem));
          case None => failure := Some(Location(Unavailable));
        }
        return None;
      }
      phase := Verifying;
      if pendingKey.None? {
        pendingKey := Some(newKey);
      }
      return Some((position.place, pendingKey.value));
    }

    /** The part of `run` after the request: report, and keep the key exactly while the intent is unsettled. */
    method Finish(outcome: Awaited) returns (resync: bool)
      modifies this
      ensures pendingKey == KeyAfter(old(pendingKey), outcome)
      ensures outcome.Unreachable? ==> pendingKey == old(pendingKey)
      ensures outcome.Answered? && outcome.reply.Done? ==> pendingKey == None
      ensures outcome.Answered? && outcome.reply.Refused? ==>
        pendingKey == if outcome.reply.code in SETTLING then None else old(pendingKey)
      ensures phase == Idle
      ensures success == if outcome.Answered? && outcome.reply.Done? then Some(outcome.reply) else old(success)
      ensures failure == if outcome.Unreachable? then Some(FailureOf(outcome.trouble))
                         else if outcome.reply.Refused? then Some(FromServer(outcome.reply.code)) else old(failure)
      ensures outcome == Unreachable(NetworkDown) ==> failure == Some(NetworkError)
      ensures outcome == Unreachable(WentOffline) ==> failure == Some(Offline)
      ensures outcome == Unreachable(NotTheApi) ==> failure == Some(ApiUnreachable)
      ensures resync ==
        (outcome.Answered? && outcome.reply.Refused? &&
         outcome.reply.code in {AlreadyPunchedIn, NoActiveSession, DuplicateRequest})
    {
      resync := false;
      phase := Idle;
      match outcome {
        case Unreachable(NetworkDown) => failure := Some(NetworkError);
        case Unreachable(WentOffline) => failure := Some(Offline);
        case Unreachable(NotTheApi) => failure := Some(ApiUnreachable);
        case Answered(Done(_, _, _, _)) =>
          pendingKey := None;
          success := Some(outcome.reply);
        case Answered(Refused(code)) =>
          if code == AlreadyPunchedIn || code == NoActiveSession || code == DuplicateRequest {
            pendingKey := None;
            resync := true;
          }
          if code in {OutsideGeofence, AccuracyTooLow, InvalidCoordinates, ImpossibleMovement} {
            pendingKey := None;
          }
          failure := Some(FromServer(code));
      }
    }
  }
}
