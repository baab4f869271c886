/**
 * The pure mapping from a dispatch outcome to the acknowledgement event
 * (ProcessingResultExtension.ToCommandProcessedEvent).
 */
module ProcessingResults {
  import opened Wrappers
  import opened Messages

  /** Used when an Unhandled outcome carries no message. */
  const NoProcessorMessage := "No command processor registered"

  /** Prefix of the message used when a Faulted outcome carries no message. */
  const FaultedMessagePrefix := "Command execution failed with exception: "

  /**
   * The acknowledgement for an outcome. It keeps the outcome's command id and
   * message; its operation result is a success exactly for a Processed outcome
   * whose functional result is Ok, a functional error exactly for a Processed
   * outcome whose functional result is Failed, an internal error exactly for
   * Unhandled and Faulted, and a cancellation exactly for Cancelled.
   */
  function ToCommandProcessedEvent(r: ProcessingResult): (ack: CommandProcessed)
    ensures ack.commandId == r.commandId && ack.resultMessage == r.resultMessage
    ensures ack.operationResult.Ok? <==> r.Processed? && r.functionalResult.Ok?
    ensures ack.operationResult.Error? <==> r.Processed? && r.functionalResult.Failed?
    ensures ack.operationResult.InternalError? <==> r.Unhandled? || r.Faulted?
    ensures ack.operationResult.Cancelled? <==> r.Cancelled?
  {
    var operationResult :=
      match r
      case Processed(_, _, functionalResult, _) =>
        (match functionalResult
         case Ok(_) => OperationResult.Ok
         case Failed(failure) => Error(failure))
      case Unhandled(_, message) => InternalError(message.GetOr(NoProcessorMessage))
      case Faulted(_, exception, message) => InternalError(message.GetOr(FaultedMessagePrefix + exception.text))
      case Cancelled(_, message) => OperationResult.Cancelled(message);
    CommandProcessed(r.commandId, operationResult, r.resultMessage)
  }

  /**
   * The text a caller reads from the acknowledgement: the functional failure
   * verbatim, the outcome's own message when there is one, and otherwise the
   * fallback for Unhandled and Faulted outcomes.
   */
  lemma AcknowledgementMessages(r: ProcessingResult)
    ensures r.Processed? && r.functionalResult.Failed? ==>
      ToCommandProcessedEvent(r).operationResult == Error(r.functionalResult.failure)
    ensures (r.Unhandled? || r.Faulted?) && r.resultMessage.Some? ==>
      ToCommandProcessedEvent(r).operationResult == InternalError(r.resultMessage.value)
    ensures r.Unhandled? && r.resultMessage.None? ==>
      ToCommandProcessedEvent(r).operationResult == InternalError(NoProcessorMessage)
    ensures r.Faulted? && r.resultMessage.None? ==>
      ToCommandProcessedEvent(r).operationResult == InternalError(FaultedMessagePrefix + r.exception.text)
    ensures r.Cancelled? ==>
      ToCommandProcessedEvent(r).operationResult == OperationResult.Cancelled(r.resultMessage)
  {
  }
}
