/**
 * What one engine session sees of the network, as data: the reply to the
 * `status=started` request and the reply to the `status=drive` request.
 */
module Engine {

  /** The animation length the client computes from a start reply; floating point is not modelled. */
  type Duration = real

  /** The `status=started` request: an ok reply, a reply that is not ok, or a thrown error (network or body). */
  datatype StartReply = StartOk(duration: Duration) | StartFailed(status: int) | StartThrew

  /** The `status=drive` request: an ok reply, a reply that is not ok, or a thrown error. */
  datatype DriveReply = DriveOk | DriveFailed(status: int) | DriveThrew

  /** Both replies of one session. */
  datatype Replies = Replies(start: StartReply, drive: DriveReply)

  /** The status the engine server answers when the engine breaks down. */
  const DriveError := 500

  /** A value a session's promise can fulfil with: a car name or `undefined`. */
  datatype JsValue = Name(name: string) | Undefined

  /** How a session's promise settles. */
  datatype SessionResult = Fulfilled(value: JsValue) | Rejected
}
