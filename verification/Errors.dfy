/**
 What the write path can raise, and the two classifications the sink makes of it:
 is a fresh attempt worth anything, and did the server judge this very request.
 */
module Errors {
  import opened Wrappers

  /** Why a 422 was answered, or a prepared file was refused by the client library. */
  datatype Why = KeyReused | Misaligned | OtherWhy

  /** The exception classes `is_retryable` distinguishes. A status of None is a request that never
      reached the server. */
  datatype Exn =
    | SinkError(canRetry: bool)
    | CommitConflict
    | DdlSinceReadSnapshot
    | IncarnationChanged(answered: bool)
    | Expired
    | ReadSnapshotExpired
    | Malformed
    | Validation(why: Why)
    | UnsupportedType
    | AlreadyExists
    | NotFound
    | IdlessFilesPresent
    | HoglakeOther(status: Option<nat>)
    | HttpError
    | OsError
    | ArrowError
    | BadValue
    | Unknown

  /** A `HoglakeError`: everything raised by the client library itself. */
  predicate IsHoglakeError(e: Exn) {
    !(e.SinkError? || e.HttpError? || e.OsError? || e.ArrowError? || e.BadValue? || e.Unknown?)
  }

  function StatusCode(e: Exn): Option<nat> {
    match e
    case CommitConflict | DdlSinceReadSnapshot | AlreadyExists | IdlessFilesPresent => Some(409)
    case IncarnationChanged(answered) => if answered then Some(409) else None
    case Expired | ReadSnapshotExpired => Some(410)
    case Validation(_) => Some(422)
    case NotFound => Some(404)
    case HoglakeOther(status) => status
    case _ => None
  }

  predicate IsRetryable(e: Exn) {
    if e.SinkError? then e.canRetry
    else if e.CommitConflict? || e.DdlSinceReadSnapshot? || e.IncarnationChanged? then true
    else if e.Malformed? || e.Validation? || e.UnsupportedType? || e.AlreadyExists? then false
    else if e.Expired? || e.ReadSnapshotExpired? then false
    else if IsHoglakeError(e) then
      match StatusCode(e)
      case None => true
      case Some(status) =>
        if status == 408 || status == 429 then true
        else if 400 <= status < 500 then e.NotFound?
        else true
    else if e.HttpError? || e.OsError? then true
    else if e.ArrowError? || e.BadValue? then false
    else true
  }

  predicate IsAnsweredRefusal(e: Exn) {
    IsHoglakeError(e) &&
    match StatusCode(e)
    case Some(status) => status == 409 || status == 410 || status == 422
    case None => false
  }

  predicate IsDestinationMoved(e: Exn) {
    e.DdlSinceReadSnapshot? || e.IncarnationChanged? || e.ReadSnapshotExpired?
  }

  /** The server judged the request, refused it, and found no receipt under its key. */
  predicate Refuses(e: Exn) {
    IsDestinationMoved(e) || (IsAnsweredRefusal(e) && e != Validation(KeyReused))
  }

  /** Nothing in this error says the server judged the commit: the request may have been applied,
      may be applied later, or may be lost. */
  predicate Unjudged(e: Exn) {
    || e.HttpError? || e.OsError? || e.Unknown? || e.Malformed?
    || (e.HoglakeOther? && !IsAnsweredRefusal(e))
  }

  /** How the ladder sees a failed commit: a move of the destination reaches it as the sink's own retryable stop. */
  function Surfaced(e: Exn): Exn {
    if IsDestinationMoved(e) then SinkError(true) else e
  }

  /** The verdict per exception class: what ends the ladder at once is the sink's own safety stop, a request the
      server or the client library finds invalid, a table that exists already, an expired read, an answer that
      cannot be read, a client error other than a timeout, a throttle or a missing table, and a local bad value. */
  lemma PermanentClasses(e: Exn)
    ensures !IsRetryable(e) <==>
              || e == SinkError(false)
              || e.Malformed? || e.Validation? || e.UnsupportedType? || e.AlreadyExists?
              || e.Expired? || e.ReadSnapshotExpired? || e.IdlessFilesPresent?
              || (e.HoglakeOther? && e.status.Some? && 400 <= e.status.value < 500 && e.status.value !in {408, 429})
              || e.ArrowError? || e.BadValue?
  {
  }

  /** A failed commit and its request: one that was judged gives the request up, and is retried unless the request
      itself is wrong, so every retry of a judged commit is a rebuild; one that was not judged keeps it, so every
      retry of it is a replay, a missing table included. It ends the ladder, request kept, only if the answer
      cannot be read or is a client error other than a timeout or a throttle. */
  lemma CommitVerdicts(e: Exn)
    requires IsAnsweredRefusal(e) || Unjudged(e) || e.NotFound?
    ensures Refuses(e) && IsHoglakeError(e) ==>
              (IsRetryable(Surfaced(e)) <==> IsDestinationMoved(e) || e.CommitConflict?)
    ensures !Refuses(e) && e != Validation(KeyReused) ==>
              && Surfaced(e) == e
              && (!IsRetryable(e) <==>
                    || e.Malformed?
                    || (e.HoglakeOther? && e.status.Some? && 400 <= e.status.value < 500
                        && e.status.value !in {408, 409, 410, 422, 429}))
    ensures e.NotFound? ==> IsRetryable(e) && !Refuses(e)
  {
  }
}
