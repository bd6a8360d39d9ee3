/** Results and the errors the library returns. */
module Results {

  datatype Option<+T> = None | Some(value: T)

  datatype Result<+T> = Success(value: T) | Failure(error: Error)

  /** One constructor per error path of the modelled files. */
  datatype Error =
    | NotLoggedIn
    | AlreadySubscribed
    | WriteFailed
    | ReadFailed
    | SubscribeFailed
    | ResponseTooShort
    | ResponseBadTag
    | TagMismatch
    | BadNotificationLength
    | ShortPacket
    | UnexpectedOpcode
    | ZeroDuration
    | NoWeekday
    | BadKind
    | HourOutOfRange
    | MinuteOutOfRange
    | BadUuid
    | BadHex(digit: bv8)
}
