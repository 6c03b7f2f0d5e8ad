/** The wire vocabulary of the transport: close reasons, hand-off states and
    the record kinds, with their numeric values. */
module Terms {
  import opened Common

  datatype CloseReason =
    | Normal | AuthenticationFailed | BindingMismatch | Stale | Timeout
    | Oversize | Malformed | SequenceViolation | RecordLimit | PeerClosed
    | BrokerLost | EligibilityLost | CleanupFailed | InternalError

  function ReasonToWire(reason: CloseReason): byte {
    match reason
    case Normal => 0
    case AuthenticationFailed => 1
    case BindingMismatch => 2
    case Stale => 3
    case Timeout => 4
    case Oversize => 5
    case Malformed => 6
    case SequenceViolation => 7
    case RecordLimit => 8
    case PeerClosed => 9
    case BrokerLost => 10
    case EligibilityLost => 11
    case CleanupFailed => 12
    case InternalError => 13
  }

  function ReasonFromWire(value: byte): Result<CloseReason, CloseReason> {
    if value == 0 then Ok(Normal)
    else if value == 1 then Ok(AuthenticationFailed)
    else if value == 2 then Ok(BindingMismatch)
    else if value == 3 then Ok(Stale)
    else if value == 4 then Ok(Timeout)
    else if value == 5 then Ok(Oversize)
    else if value == 6 then Ok(Malformed)
    else if value == 7 then Ok(SequenceViolation)
    else if value == 8 then Ok(RecordLimit)
    else if value == 9 then Ok(PeerClosed)
    else if value == 10 then Ok(BrokerLost)
    else if value == 11 then Ok(EligibilityLost)
    else if value == 12 then Ok(CleanupFailed)
    else if value == 13 then Ok(InternalError)
    else Err(Malformed)
  }

  datatype Handoff = NotHandedOff | HandoffPossibleOrConfirmed

  function HandoffToWire(handoff: Handoff): byte {
    if handoff.NotHandedOff? then 0 else 1
  }

  function HandoffFromWire(value: byte): Result<Handoff, CloseReason> {
    if value == 0 then Ok(NotHandedOff)
    else if value == 1 then Ok(HandoffPossibleOrConfirmed)
    else Err(Malformed)
  }

  function ConservativeMax(a: Handoff, b: Handoff): Handoff {
    if a.HandoffPossibleOrConfirmed? || b.HandoffPossibleOrConfirmed?
    then HandoffPossibleOrConfirmed else NotHandedOff
  }

  const RECORD_HEADER_LEN := 12
  const RECORD_DATA_MAX := 65_507
  const RECORD_LIMIT := 0x1_0000_0000
  const BYTE_LIMIT := 0x100_0000_0000
  const TAG_LEN := 16
}
