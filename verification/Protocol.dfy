/** The commands, evidence and acknowledgements exchanged with the Event Inbox. */
module Protocol {
  import opened Wrappers

  // Milliseconds since the epoch.
  type Time = int

  const MAX_EXPIRY_WINDOW: Time := 3_600_000

  datatype Operation = SendText | SendImage

  /** `createdDay` is the date part of the command's own `createdAt` text. */
  datatype Command = Command(
    commandId: string, sessionId: string, bindingGeneration: int, createdDay: string,
    createdAt: Time, expiresAt: Time, operation: Operation)

  /** The expiry window that a parsed command is known to respect. */
  predicate ValidWindow(command: Command) {
    command.createdAt < command.expiresAt <= command.createdAt + MAX_EXPIRY_WINDOW
  }

  datatype Kind =
    | CommandReceived | SendStarted | SendAccepted | SendRejected | SendIndeterminate
    | AckSent | AckDelivered | AckRead | AckFailed

  datatype DeliveryStatus = Pending | Accepted | Sent | Delivered | Read | Failure | Indeterminate

  datatype ErrorClass =
    | SafeRejection | RateLimited | SessionRestricted | TransientFailure
    | Ambiguous | InvalidCommand | ExpiredCommand | BindingMismatch

  datatype AckStatus = StatusSent | StatusDelivered | StatusRead | StatusFailed

  /** Evidence as it is posted; `eventId` is the draw of a source that never repeats. */
  datatype Evidence = Evidence(
    eventId: nat, commandId: string, sequence: nat, kind: Kind, messageId: Option<string>,
    deliveryStatus: DeliveryStatus, errorClass: Option<ErrorClass>, errorCode: Option<string>,
    digest: string, occurredAt: Time)

  predicate IsAck(kind: Kind) {
    kind.AckSent? || kind.AckDelivered? || kind.AckRead? || kind.AckFailed?
  }

  function AckKind(status: AckStatus): Kind {
    match status
    case StatusSent => AckSent
    case StatusDelivered => AckDelivered
    case StatusRead => AckRead
    case StatusFailed => AckFailed
  }

  function AckDelivery(status: AckStatus): DeliveryStatus {
    match status
    case StatusSent => Sent
    case StatusDelivered => Delivered
    case StatusRead => Read
    case StatusFailed => Failure
  }
}
