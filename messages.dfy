/**
 * The values that flow through the command pipeline: commands, the events
 * handlers produce, the four-way dispatch outcome, the caller-facing
 * operation result and the acknowledgement event.
 */
module Messages {
  import opened Wrappers

  type CommandId = string

  /** The discriminant the handler registry is keyed by (the command's runtime type). */
  datatype CommandKind = CreateAccountKind | NamedKind(name: string)

  /** The concrete payload of a command; `Other` stands for command types this model does not spell out. */
  datatype CommandBody =
    | CreateAccount(accountId: string, owner: string, initialBalance: int)
    | Other(kind: string)

  datatype Command = Command(id: CommandId, body: CommandBody)
  {
    function Kind(): CommandKind
    {
      match body
      case CreateAccount(_, _, _) => CreateAccountKind
      case Other(name) => NamedKind(name)
    }
  }

  /** A fact produced by a handler; `OtherEvent` stands for payload types this model does not spell out. */
  datatype DomainEvent =
    | AccountCreated(accountId: string, owner: string, initialBalance: int)
    | OtherEvent(streamId: string, kind: string)

  /** A captured .NET exception; `text` is what its ToString() renders. */
  datatype Exception = Exception(text: string)

  /** The handler's own verdict, carried inside a Processed outcome. */
  datatype FunctionalResult = Ok(message: string) | Failed(failure: string)

  /**
   * The dispatch outcome. Every variant carries `commandId` and `resultMessage`
   * (a null message is None), so both are read uniformly.
   */
  datatype ProcessingResult =
    | Processed(commandId: CommandId, resultEvents: seq<DomainEvent>, functionalResult: FunctionalResult, resultMessage: Option<string>)
    | Unhandled(commandId: CommandId, resultMessage: Option<string>)
    | Faulted(commandId: CommandId, exception: Exception, resultMessage: Option<string>)
    | Cancelled(commandId: CommandId, resultMessage: Option<string>)

  /** What a waiting caller is told. The cancelled message is passed through as it is, so it may be null. */
  datatype OperationResult =
    | Ok
    | Error(message: string)
    | InternalError(message: string)
    | Cancelled(reason: Option<string>)

  /** The acknowledgement event written once per processed command. */
  datatype CommandProcessed = CommandProcessed(commandId: CommandId, operationResult: OperationResult, resultMessage: Option<string>)

  /** One entry of the event store's log. */
  datatype EventPayload =
    | DomainPayload(event: DomainEvent)
    | CommandProcessedPayload(processed: CommandProcessed)
}
