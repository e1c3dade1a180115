/** Outcomes shared by every module. */
module Results {
  datatype Option<+T> = None | Some(value: T)

  /** The crate's errors, without their byte-offset payloads (src/error.rs). */
  datatype Error =
    | UnsupportedVersion | ProtocolMismatch | InvalidPoint | IdentityPoint | InvalidScalar
    | InvalidTweak | InvalidElementTag | InvalidIdentity | UnexpectedEnd | TrailingBytes
    | LengthOverflow | EmptyInput | LengthMismatch | ZeroNode | DuplicateNode
    | DuplicateParticipant | DuplicateSlot | ParticipantNotFound | ParticipantMismatch
    | InvalidTranscript | CommitmentMismatch | CoefficientMismatch | SupportMismatch
    | NonceMismatch | ShareMismatch | OutputKeyMismatch | InvalidSighash | Busy | AttemptClosed
    | AttemptMismatch | AttemptExhausted | WrongStage | ReplayMismatch | EpochMismatch | Expired
    | ReceiverMismatch | CommandMismatch | StalePredecessor | PhaseClosed | AlreadyTerminal
    | ZeroNonce | IdentityNonce | InvalidPartial | InvalidSignature

  datatype Result<+T> = Ok(value: T) | Err(error: Error)
  {
    predicate IsFailure() { Err? }

    function PropagateFailure<U>(): Result<U>
      requires Err?
    {
      Err(error)
    }

    function Extract(): T
      requires Ok?
    {
      value
    }
  }

  /** The check `condition` or the given error. */
  function Need(condition: bool, error: Error): Result<()> {
    if condition then Ok(()) else Err(error)
  }
}
