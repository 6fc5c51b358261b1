/** Identities and small value types shared by the whole model of the event pump. */
module Base {

  /** A subscriber or completion callback, compared by identity (JavaScript `===` on functions). */
  type CallbackId = nat

  /** An event payload; the pump never looks inside it, it only hands it on. */
  type EventValue = nat

  datatype Option<+T> = None | Some(value: T)

  /** The three validation failures the pump raises through its exception creator. */
  datatype ErrorKind = BadEventName | BadEventSubscriber | BadCompletionCallback

  datatype Result<+T> = Ok(value: T) | Err(kind: ErrorKind)

  /** A dynamically typed argument: absent (`undefined`), of the expected type, or of any other type. */
  datatype Argument<+T> = Missing | Supplied(value: T) | IllTyped
}
