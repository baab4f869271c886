/**
 * The account-creation command processor, which makes the pipeline
 * concrete: one AccountCreated event and an Ok functional result for every
 * CreateAccount command.
 */
module CreateAccount {
  import opened Wrappers
  import opened Messages
  import opened ProcessingResults
  import opened CommandStream

  /** The functional result's message, "Account {AccountId} create for {Owner}". */
  function CreatedMessage(accountId: string, owner: string): string
  {
    "Account " + accountId + " create for " + owner
  }

  /**
   * Processing a CreateAccount command never fails and never rejects its
   * input (a negative initial balance included): the outcome is Processed
   * under the command's id, with exactly one AccountCreated event carrying
   * the command's account id, owner and initial balance, and an Ok result.
   */
  function InternalProcessSync(c: Command): (r: ProcessingResult)
    requires c.body.CreateAccount?
    ensures r.Processed? && r.commandId == c.id
    ensures r.resultEvents == [AccountCreated(c.body.accountId, c.body.owner, c.body.initialBalance)]
    ensures r.functionalResult == FunctionalResult.Ok(CreatedMessage(c.body.accountId, c.body.owner))
  {
    var message := CreatedMessage(c.body.accountId, c.body.owner);
    Processed(c.id, [AccountCreated(c.body.accountId, c.body.owner, c.body.initialBalance)], FunctionalResult.Ok(message), Some(message))
  }

  /**
   * The processor as registered for the CreateAccount kind. The registry
   * routes by kind, so only CreateAccount commands reach it; any other
   * command is answered as unhandled.
   */
  function CreateAccountProcessor(c: Command): ProcessingResult
  {
    if c.body.CreateAccount? then InternalProcessSync(c) else Unhandled(c.id, None)
  }

  /** The registry of the example domain. */
  function Processors(): Registry
  {
    map[CreateAccountKind := CreateAccountProcessor]
  }

  lemma ProcessorsKeepCommandIds()
    ensures KeepsCommandIds(Processors())
  {
  }

  /**
   * A CreateAccount command sent through the pipeline with no failing
   * write: the log receives its AccountCreated event, then an Ok
   * acknowledgement, and the waiting caller is answered Ok.
   */
  lemma AccountCreatedThenAcknowledged(c: Command)
    requires c.body.CreateAccount?
    ensures CommandWrites(c, Processors(), NoFaults) == [
      DomainPayload(AccountCreated(c.body.accountId, c.body.owner, c.body.initialBalance)),
      CommandProcessedPayload(CommandProcessed(c.id, OperationResult.Ok, Some(CreatedMessage(c.body.accountId, c.body.owner))))]
    ensures FirstResultFor(CommandWrites(c, Processors(), NoFaults), c.id) == Some(OperationResult.Ok)
  {
    var p := Dispatch(c, Processors());
    assert p == InternalProcessSync(c);
    assert ToPayloads(p.resultEvents) == [DomainPayload(AccountCreated(c.body.accountId, c.body.owner, c.body.initialBalance))];
  }

  /**
   * A CreateAccount command whose event write throws `e`: nothing but the
   * acknowledgement reaches the log, and the caller is answered with an
   * internal error naming the exception, never Ok.
   */
  lemma AccountWriteFailureReported(c: Command, e: Exception)
    requires c.body.CreateAccount?
    ensures CommandWrites(c, Processors(), WriteFaults(Some(e), None)) == [
      CommandProcessedPayload(CommandProcessed(c.id, InternalError(FaultedMessagePrefix + e.text), None))]
    ensures FirstResultFor(CommandWrites(c, Processors(), WriteFaults(Some(e), None)), c.id) ==
      Some(InternalError(FaultedMessagePrefix + e.text))
  {
    assert Dispatch(c, Processors()) == InternalProcessSync(c);
  }

  /**
   * Two account creations sent with no processor registered: each caller is
   * answered with the internal error of its own command, "No command
   * processor registered", and neither answer is taken from the other's
   * acknowledgement.
   */
  lemma UnregisteredCreationsAnsweredSeparately(a: Command, b: Command)
    requires a.body.CreateAccount? && b.body.CreateAccount? && a.id != b.id
    ensures var log := TraceWrites([a, b], map[], [NoFaults, NoFaults]);
      && Acks(log) == [CommandProcessed(a.id, InternalError(NoProcessorMessage), None),
                       CommandProcessed(b.id, InternalError(NoProcessorMessage), None)]
      && FirstResultFor(log, a.id) == Some(InternalError(NoProcessorMessage))
      && FirstResultFor(log, b.id) == Some(InternalError(NoProcessorMessage))
  {
    var empty: Registry := map[];
    var wa := CommandWrites(a, empty, NoFaults);
    var wb := CommandWrites(b, empty, NoFaults);
    assert wa == [CommandProcessedPayload(CommandProcessed(a.id, InternalError(NoProcessorMessage), None))];
    assert wb == [CommandProcessedPayload(CommandProcessed(b.id, InternalError(NoProcessorMessage), None))];
    TraceWritesStep([a, b], empty, [NoFaults, NoFaults], 0);
    TraceWritesStep([a, b], empty, [NoFaults, NoFaults], 1);
    assert [a, b][..2] == [a, b] && [NoFaults, NoFaults][..2] == [NoFaults, NoFaults];
    assert TraceWrites([a, b], empty, [NoFaults, NoFaults]) == wa + wb;
    AcksAppend(wa, wb);
    FirstResultForAppend(wa, wb, a.id);
    FirstResultForAppend(wa, wb, b.id);
  }
}
