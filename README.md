# SewingBox: command pipeline, FTP argument checks and result-fold battles

A Dafny model of three pieces of logic from the SewingBox workshop repository.

1. **The command-processing pipeline of EventSourcing2** (`command_stream.dfy`,
   `processing_results.dfy`, `messages.dfy`, `create_account.dfy`). It is
   modelled as a sequential trace machine:
   - The `CommandStream` class admits commands one at a time and hands each
     to the subscriptions active at that moment. A ghost `sent` log records
     every admitted command.
   - Dispatch looks up a handler by command kind and yields one of four
     outcomes: Processed, Unhandled, Faulted or Cancelled.
   - The `EventStore` class holds the log as a `seq`. Whether a write throws
     is decided by the environment and passed in as a parameter.
   - The events of a Processed outcome are written first. If that write
     throws, the outcome becomes Faulted.
   - The outcome is then mapped to exactly one `CommandProcessed`
     acknowledgement, which is appended on a best-effort basis. The
     `WakeUp` class is signalled only when that append succeeds.
   - A caller that sent a command waits for the first acknowledgement
     carrying its command id.

   Specification functions (`CommandWrites`, `TraceWrites`, `Acks`,
   `FirstResultFor`) describe what the log receives. The methods are proved
   against them, and the lemmas prove the following:
   - no partial success;
   - one acknowledgement, in processing order, for each command whose
     acknowledgement write succeeded, as many as there are wake-up signals;
   - the acknowledgement is written last;
   - the waiter gets its own command's result;
   - replaying the log agrees with the waiter.

   The account-creation processor makes the pipeline concrete.
2. **The argument checks of the SendFileToFtp tool** (`send_file_to_ftp.dfy`).
   `ValidateTransfer` is the early-return guard chain of `ExecuteTransfer`:
   host, port, host URI, authentication mode, the credentials each mode
   needs, upload path, target folder. `FailingChecks` is an independent
   reference definition that lists every failing check in source order.
   Together they show that the first failure wins. `ExitCode` maps the
   transfer outcome to Main's exit code.
   - Port 0 is rejected although its message reads "greater or equal to
     zero". The model follows the code.
   - An invalid base64 private key makes `Convert.FromBase64String` throw,
     and nothing catches it. The model keeps that exception as an escaped
     outcome, for which Main has no exit code.
3. **The two fairy-tale battles of the ResultTypesWorkshop**
   (`adventure.dfy`, `lullaby_fairy_tale.dfy`, `nightmare_fairy_tale.dfy`).
   Both fold a list of enemies through a fallible `KillWithSword`, which is
   a function parameter.
   - The lullaby's fold short-circuits with `Bind`.
   - The nightmare maps every enemy to a fight and then combines the fights
     pairwise, from the left, with `GatheringLoot`.
   - The lullaby's battle also records the enemies actually fought. The
     nightmare fights every enemy, because Aggregate forces every element
     of the Select.
   - Both are specified against `FirstDefeat`, the index of the first lost
     fight.
   - A lemma shows the two agree on the verdict and differ only in how many
     enemies are fought.

The events of every Processed outcome are written, including one whose
functional result is Failed (CommandStream.cs lines 75-80). `DomainWrites`
models it that way.

## Model

| member | source | states |
|---|---|---|
| ProcessingResults.ToCommandProcessedEvent | EventSourcing/EventSourcing2/Commands/CommandStream.cs:122-129 | The acknowledgement keeps the outcome's command id and message. Its result is Ok exactly for Processed with an Ok functional result. It is Error exactly for Processed with a Failed one. It is InternalError exactly for Unhandled or Faulted, and Cancelled exactly for Cancelled. |
| ProcessingResults.AcknowledgementMessages | EventSourcing/EventSourcing2/Commands/CommandStream.cs:124-127 | A Failed result's failure text is carried verbatim. Unhandled and Faulted use their own message when present. Otherwise Unhandled falls back to "No command processor registered" and Faulted to "Command execution failed with exception: " followed by the exception. Cancelled carries its message. |
| CommandStream.Dispatch | EventSourcing/EventSourcing2/Commands/CommandStream.cs:73 | A command whose kind is registered is answered by that kind's processor. A command whose kind has no processor is Unhandled, without a message. Processors that keep ids yield an outcome under the command's id. |
| CommandStream.ToPayloads | EventSourcing/EventSourcing2/Commands/CommandStream.cs:79 | The payloads written are the handler's events, one for one, in order. |
| CommandStream.AfterWrite | EventSourcing/EventSourcing2/Commands/CommandStream.cs:74-89 | A Processed outcome whose event write threw becomes Faulted under the same command id, capturing the exception. A Processed outcome whose write succeeded, and every other outcome, pass through unchanged. |
| CommandStream.DomainWrites | EventSourcing/EventSourcing2/Commands/CommandStream.cs:75-81 | The log receives the events of every Processed outcome, whatever its functional result, when the write succeeds. It receives nothing for other outcomes or a failed write. |
| CommandStream.AckWrites | EventSourcing/EventSourcing2/Commands/CommandStream.cs:56-65 | The acknowledgement write appends exactly the one acknowledgement of the outcome. A write that throws appends nothing. |
| CommandStream.CommandStream.constructor | EventSourcing/EventSourcing2/Commands/CommandStream.cs:26-30 | A new stream has admitted nothing and has no subscribers. |
| CommandStream.CommandStream.Subscribe | EventSourcing/EventSourcing2/Commands/CommandStream.cs:32 | A new subscription starts at the current end of the stream and has seen nothing. No earlier subscription changes. |
| CommandStream.CommandStream.Unsubscribe | EventSourcing/EventSourcing2/Commands/CommandStream.cs:32 | Disposing a subscription deactivates it and changes nothing else. |
| CommandStream.CommandStream.SendCommand | EventSourcing/EventSourcing2/Commands/CommandStream.cs:34 | Exactly the given command is admitted, once. It is handed to every active subscription and to no inactive one, and every subscription still sees only what was admitted after it subscribed. |
| CommandStream.CommandStream.SendCommands | EventSourcing/EventSourcing2/Commands/CommandStream.cs:36 | Every command of the batch is admitted, in batch order. Each active subscription receives the whole batch, and the subscriptions stay consistent. |
| CommandStream.SubscribersAgree | EventSourcing/EventSourcing2/Commands/CommandStream.cs:29-32 | Multicast: two active subscriptions see the same commands, the later one from its own subscription point on. |
| CommandStream.EventStore.WriteEvents | EventSourcing/EventSourcing2/Commands/CommandStream.cs:59 | A successful write appends the events at the end of the log. A write that throws reports the exception and leaves the log unchanged. |
| CommandStream.WakeUp.ThereIsWorkToDo | EventSourcing/EventSourcing2/Commands/CommandStream.cs:60 | One more wake-up signal is given. |
| CommandStream.Process | EventSourcing/EventSourcing2/Commands/CommandStream.cs:68-91 | The result is the dispatch outcome, downgraded to Faulted when the event write threw. The log grows by exactly what that write appended. |
| CommandStream.Acknowledge | EventSourcing/EventSourcing2/Commands/CommandStream.cs:53-66 | The log grows by the one acknowledgement, or by nothing when its write throws, which is swallowed. The wake-up is signalled once only if the write succeeded. |
| CommandStream.HandleCommand | EventSourcing/EventSourcing2/Commands/CommandStream.cs:47-66 | A command's domain events are written, then its acknowledgement. The log grows by exactly these writes and the outcome is returned. |
| CommandStream.HandleCommands | EventSourcing/EventSourcing2/Commands/CommandStream.cs:47-66 | Processing commands in order appends, command after command, exactly what each command writes. The wake-up is signalled once for every command whose acknowledgement write succeeded. |
| CommandStream.FirstAcknowledgement | EventSourcing/EventSourcing2/Commands/CommandStream.cs:96-97 | Scanning the log from the listening point yields the result of the first acknowledgement with the command's id, or none. |
| CommandStream.SendCommandAndWaitUntilApplied | EventSourcing/EventSourcing2/Commands/CommandStream.cs:93-102 | Listening begins at the current end of the log, before sending. The command is admitted once and handed to every active subscription. The log grows by what the command writes, and the wake-up is signalled once only if its acknowledgement write succeeded. The answer is the first acknowledgement for its id among those writes. |
| CommandStream.NoPartialSuccess | EventSourcing/EventSourcing2/Commands/CommandStream.cs:74-81 | An Ok acknowledgement means a Processed outcome with an Ok result whose events were all written. |
| CommandStream.WriteFailureIsInternalError | EventSourcing/EventSourcing2/Commands/CommandStream.cs:82-85 | A failed event write reaches the caller as an internal error naming the exception. |
| CommandStream.NoAcksInPayloads | EventSourcing/EventSourcing2/Commands/CommandStream.cs:79 | Assuming a handler's result events are domain events only, as the model types them, a handler's output contains no acknowledgement, so no waiter is answered by it. |
| CommandStream.FirstResultForAppend | EventSourcing/EventSourcing2/Commands/CommandStream.cs:97 | The first matching acknowledgement in a concatenation is the first in the earlier part if there is one, else the first in the later part. |
| CommandStream.AcksAppend | EventSourcing/EventSourcing2/Commands/CommandStream.cs:58-59 | The acknowledgements of a concatenation are those of its parts, in order. |
| CommandStream.CommandAcks | EventSourcing/EventSourcing2/Commands/CommandStream.cs:53-59 | Each command writes exactly one acknowledgement, that of its final outcome, unless the write throws. |
| CommandStream.WaiterGetsOwnResult | EventSourcing/EventSourcing2/Commands/CommandStream.cs:93-102 | The waiter gets the operation result of its own command's final outcome. When the acknowledgement write throws, no answer is ever given. |
| CommandStream.AcknowledgementsOfTrace | EventSourcing/EventSourcing2/Commands/CommandStream.cs:53-65 | Over a whole trace, with any acknowledgement writes failing, the log holds, in processing order, the final outcome's acknowledgement of exactly those commands whose acknowledgement write succeeded. Their number equals the number of wake-up signals. |
| CommandStream.OneAcknowledgementPerCommand | EventSourcing/EventSourcing2/Commands/CommandStream.cs:47-66 | When no acknowledgement write of the trace throws, the log holds exactly one acknowledgement per command, in processing order, each for that command's final outcome. |
| CommandStream.ReplayAgreesWithWaiter | EventSourcing/EventSourcing2/Commands/CommandStream.cs:96-97 | Reading the whole log from its start gives the waiter's answer, whatever comes after, if no earlier acknowledgement carries that id. |
| CommandStream.AcknowledgementComesLast | EventSourcing/EventSourcing2/Commands/CommandStream.cs:53-59 | A command's acknowledgement is the last thing it writes. Everything before it is a domain event. |
| CreateAccount.InternalProcessSync | EventSourcing/EventSoucing.Example.Domain/Commands/CreateAccount.cs:10-12 | Processed under the command's id, with exactly one AccountCreated event carrying the command's account id, owner and initial balance. The result is always Ok with "Account {id} create for {owner}", and no input is rejected. |
| CreateAccount.ProcessorsKeepCommandIds | EventSourcing/EventSoucing.Example.Domain/Commands/CreateAccount.cs:10 | The example registry answers every command under its own id. |
| CreateAccount.AccountCreatedThenAcknowledged | EventSourcing/EventSoucing.Example.Domain/Commands/CreateAccount.cs:10-12 | Through the pipeline with no failing write, the log receives the AccountCreated event and then an Ok acknowledgement, and the caller is answered Ok. |
| CreateAccount.AccountWriteFailureReported | EventSourcing/EventSourcing2/Commands/CommandStream.cs:77-85 | When the account event's write throws, only the acknowledgement reaches the log. The caller gets an internal error naming the exception. |
| CreateAccount.UnregisteredCreationsAnsweredSeparately | EventSourcing/EventSourcing2/Commands/CommandStream.cs:125 | With no processor registered, each of two commands gets its own "No command processor registered" acknowledgement. Neither caller is answered by the other's. |
| Adventure.FirstDefeat | ResultTypesWorkshop/SaveThePrincess/Adventure/FairyTales/LullabyFairyTale.cs:33-35 | None exactly when every fight is won. Otherwise it gives the index of a lost fight with every earlier fight won. |
| LullabyFairyTale.DefeatEnemy | ResultTypesWorkshop/SaveThePrincess/Adventure/FairyTales/LullabyFairyTale.cs:40-49 | The sword fight's result, unchanged. |
| LullabyFairyTale.DefeatEnemies | ResultTypesWorkshop/SaveThePrincess/Adventure/FairyTales/LullabyFairyTale.cs:31-38 | With no lost fight, every enemy is fought and the loot has one entry per enemy, in enemy order (empty for no enemies). Otherwise the result is the first lost fight's error and no later enemy is fought. |
| LullabyFairyTale.FreeThePrincess | ResultTypesWorkshop/SaveThePrincess/Adventure/FairyTales/LullabyFairyTale.cs:51-57 | Fails, with the "still enemies in the castle" message, exactly when the castle has enemies. Otherwise it returns the castle's princess option. |
| LullabyFairyTale.TravelingHome | ResultTypesWorkshop/SaveThePrincess/Adventure/FairyTales/LullabyFairyTale.cs:59-69 | Always succeeds, keeping hero, princess and loot. |
| NightmareFairyTale.DefeatEnemy | ResultTypesWorkshop/SaveThePrincess/Adventure/FairyTales/NightmareFairyTale.cs:36-45 | The sword fight's result, unchanged. |
| NightmareFairyTale.GatheringLoot | ResultTypesWorkshop/SaveThePrincess/Adventure/FairyTales/NightmareFairyTale.cs:47-50 | Ok exactly when both inputs are Ok, and then the sum of their loot. Otherwise it is the left error if there is one, else the right error. |
| NightmareFairyTale.Aggregate | ResultTypesWorkshop/SaveThePrincess/Adventure/FairyTales/NightmareFairyTale.cs:33 | The left fold with GatheringLoot is Ok exactly when every fight is Ok, and then carries the sum of all loot. Otherwise it is the first error in list order. |
| NightmareFairyTale.Fights | ResultTypesWorkshop/SaveThePrincess/Adventure/FairyTales/NightmareFairyTale.cs:33 | One fight per enemy, in enemy order. |
| NightmareFairyTale.DefeatEnemies | ResultTypesWorkshop/SaveThePrincess/Adventure/FairyTales/NightmareFairyTale.cs:31-34 | Every enemy is fought. No enemies gives Loot(0). With no lost fight the loot is the sum of all loot; otherwise the result is the first lost fight's error. |
| NightmareFairyTale.FreeThePrincess | ResultTypesWorkshop/SaveThePrincess/Adventure/FairyTales/NightmareFairyTale.cs:52-58 | Fails, with the "still enemies in the castle" message, exactly when the castle has enemies. Otherwise it returns the castle's princess option. |
| NightmareFairyTale.TravelingHome | ResultTypesWorkshop/SaveThePrincess/Adventure/FairyTales/NightmareFairyTale.cs:60-70 | Always succeeds, keeping hero, princess and loot. |
| NightmareFairyTale.SameVerdictAsLullaby | ResultTypesWorkshop/SaveThePrincess/Adventure/FairyTales/NightmareFairyTale.cs:31-34 | Both tellings fail together, with the same error message. Without a lost fight, the nightmare's total is the value of the lullaby's loot list. The lullaby fights a prefix of the enemies the nightmare fights. |
| SendFileToFtp.ValidateTransfer | FuniclarChallenge/SendFileToFtp/Program.cs:78-151 | A null or empty host is rejected before anything else. A port of 0 or less is rejected next. Validation passes only with a non-empty host, a positive port, a valid host URI, a parsed mode that is Password or PrivateKey, a non-empty upload path and a non-empty target folder starting with "/". |
| SendFileToFtp.FirstFailureWins | FuniclarChallenge/SendFileToFtp/Program.cs:78-151 | The checks pass exactly when no check in the ordered list fails. Otherwise the outcome is the first failing check's error alone. |
| SendFileToFtp.CredentialsChosen | FuniclarChallenge/SendFileToFtp/Program.cs:101-137 | Password mode yields the user and password. PrivateKey mode yields the decoded base64 key when one is given, else the key file's bytes when a path is given, else no credentials. |
| SendFileToFtp.ExecuteTransfer | FuniclarChallenge/SendFileToFtp/Program.cs:67-176 | Rejected arguments end in Failure with that error, and an escaped exception propagates. Only validated arguments reach the upload, with the credentials built. |
| SendFileToFtp.ExitCode | FuniclarChallenge/SendFileToFtp/Program.cs:52-64 | 0 exactly for success and 1 exactly for failure. There is no exit code when an exception escapes. |
| SendFileToFtp.RejectedArgumentsExitWithOne | FuniclarChallenge/SendFileToFtp/Program.cs:52-64 | Arguments whose first failing check rejects them give exit code 1, whatever the upload would do. |

## Left out

- Concurrency: the AsyncLock, the Rx Subject with Publish().RefCount(), the interleaving of SelectMany, SubscribeAsync, the scheduler and ConfigureAwait. Admission and processing are one sequential trace, and each admitted command is processed right after admission.
- CommandStream.CommandStream.SendCommands: Task.WhenAll starts every send at once and the lock then orders them. The model admits the batch in batch order, which is one of the orders the lock allows.
- CommandStream.HandleCommands: it does not return the outcomes of the commands, only the log they produce and the wake-up count. The outcomes are given by `Outcome` per command.
- CommandStream.NoAcksInPayloads: a handler's result events are typed as domain events, so they can never contain an acknowledgement. In the code, ResultEvents are EventPayloads written through the same WriteEvents call as the acknowledgement, so a handler could emit a CommandProcessed among them. The model does not capture that. `CommandAcks`, `WaiterGetsOwnResult`, `AcknowledgementsOfTrace`, `OneAcknowledgementPerCommand`, `ReplayAgreesWithWaiter` and `AcknowledgementComesLast` rest on this restriction.
- Processing is not tied to the processor subscriptions of the stream. The model processes each sent command exactly once, as if exactly one processor subscription were active when it was sent. In the code, a command sent while no processor subscription is active is never processed, and its waiter never returns. A command sent while two are active is processed and acknowledged twice. `HandleCommand`, `HandleCommands`, `SendCommandAndWaitUntilApplied`, `WaiterGetsOwnResult` and `OneAcknowledgementPerCommand` all rest on this single-processor assumption.
- Dispose of the stream and of subscriptions beyond deactivating one subscription; `Unsubscribe` stands for disposing what Subscribe returned.
- LogResult, the ILogger calls and every Console.WriteLine: logging and output only.
- ProcessingResultExtension.Match (the action overload) only adapts actions to functions for LogResult. Dafny's `match` is already exhaustive, so there is nothing to model.
- CommandProcessor.Process and GetCommandProcessor are not part of this model. Dispatch is a map from command kind to handler, and a missing kind gives Unhandled without a message.
- The Faulted_ constructor and ToProcessedResult are not part of this model. A Faulted outcome built after a failed write carries no message. A Processed outcome from CreateAccount carries its Ok message as its result message.
- The exception's text in the Faulted fallback message is its string form, an opaque string here.
- The real IEventStore is not part of this model. A write either appends all its events or, when it throws, none; partial writes are not modelled.
- The internals of WakeUp beyond counting signals.
- The initial balance of CreateAccount is a C# decimal, modelled as an unbounded integer.
- FTP connect and upload (FtpLib), reading the file to upload and the connect-failure message: one `upload` function parameter stands for lines 153-175 of ExecuteTransfer.
- UriBuilder, Enum.TryParse, Convert.FromBase64String and File.ReadAllBytesAsync are library calls, given as function parameters.
- String.StartsWith("/") uses the current culture in C#; it is modelled as an ordinal prefix test.
- The port is an unbounded integer; C# int bounds play no role in the checks.
- CallForAHero, TravelToCastle and EnterCastle depend on FairyTaleFactory, which is not part of this model.
- Hero.KillWithSword is a fixed function parameter of the hero and the enemy, and an enemy holds only its kind. So two enemies of the same kind always fight alike. A random KillWithSword, as the source presumably has, could lose to one Orc and beat the next; the model does not capture that.
- Castle.HasEnemies is a field of the castle rather than derived from its enemy list, since its definition is not part of this model.
- Loot values are unbounded integers, so the nightmare's sum cannot overflow as a C# int could.
