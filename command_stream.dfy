/**
 * The command pipeline as a sequential trace machine: a multicast command
 * stream, dispatch to a registered handler, the domain-event write that can
 * turn a Processed outcome into Faulted, the best-effort acknowledgement
 * write with its wake-up, and the caller that waits for its command's
 * acknowledgement.
 */
module CommandStream {
  import opened Wrappers
  import opened Messages
  import opened ProcessingResults

  // ---------------------------------------------------------------------
  // Dispatch
  // ---------------------------------------------------------------------

  /** A command processor: it turns a command into one of the four outcomes. */
  type Handler = Command -> ProcessingResult

  /** The processors, looked up by the command's kind. */
  type Registry = map<CommandKind, Handler>

  /** Every registered processor reports its outcome under the id of the command it was given. */
  ghost predicate KeepsCommandIds(registry: Registry)
  {
    forall k, c :: k in registry ==> registry[k](c).commandId == c.id
  }

  /**
   * Looking up and running the processor for a command: a registered kind
   * is answered by its own processor, and a kind with no processor yields
   * an Unhandled outcome without a message.
   */
  function Dispatch(c: Command, registry: Registry): (r: ProcessingResult)
    ensures c.Kind() in registry ==> r == registry[c.Kind()](c)
    ensures c.Kind() !in registry ==> r == Unhandled(c.id, None)
    ensures KeepsCommandIds(registry) ==> r.commandId == c.id
  {
    if c.Kind() in registry then registry[c.Kind()](c) else Unhandled(c.id, None)
  }

  // ---------------------------------------------------------------------
  // What one command writes
  // ---------------------------------------------------------------------

  /** The exceptions the store throws at the two writes made for one command (None: the write succeeds). */
  datatype WriteFaults = WriteFaults(events: Option<Exception>, acknowledgement: Option<Exception>)

  const NoFaults := WriteFaults(None, None)

  function ToPayloads(events: seq<DomainEvent>): (ps: seq<EventPayload>)
    ensures |ps| == |events|
    ensures forall i :: 0 <= i < |events| ==> ps[i] == DomainPayload(events[i])
  {
    seq(|events|, i requires 0 <= i < |events| => DomainPayload(events[i]))
  }

  /**
   * The outcome once the domain events were written: a Processed outcome
   * whose write threw becomes Faulted under the same command id, capturing
   * the exception; every other outcome passes through unchanged.
   */
  function AfterWrite(p: ProcessingResult, fault: Option<Exception>): (r: ProcessingResult)
    ensures r.commandId == p.commandId
    ensures r.Processed? <==> p.Processed? && fault.None?
    ensures r.Processed? ==> r == p
    ensures p.Processed? && fault.Some? ==> r == Faulted(p.commandId, fault.value, None)
    ensures !p.Processed? ==> r == p
  {
    match p
    case Processed(id, _, _, _) => if fault.Some? then Faulted(id, fault.value, None) else p
    case _ => p
  }

  /**
   * What the domain-event write adds to the log: the events of every
   * Processed outcome (whatever its functional result) when the write
   * succeeds, and nothing otherwise.
   */
  function DomainWrites(p: ProcessingResult, fault: Option<Exception>): (w: seq<EventPayload>)
    ensures p.Processed? && fault.None? ==> w == ToPayloads(p.resultEvents)
    ensures !p.Processed? || fault.Some? ==> w == []
  {
    if p.Processed? && fault.None? then ToPayloads(p.resultEvents) else []
  }

  /** What the acknowledgement write adds to the log: the one acknowledgement, unless the write threw. */
  function AckWrites(r: ProcessingResult, fault: Option<Exception>): (w: seq<EventPayload>)
    ensures fault.None? ==> w == [CommandProcessedPayload(ToCommandProcessedEvent(r))]
    ensures fault.Some? ==> w == []
  {
    if fault.None? then [CommandProcessedPayload(ToCommandProcessedEvent(r))] else []
  }

  /** The final outcome of one command. */
  function Outcome(c: Command, registry: Registry, faults: WriteFaults): ProcessingResult
  {
    AfterWrite(Dispatch(c, registry), faults.events)
  }

  /** Everything one command appends to the log: its domain events first, then its acknowledgement. */
  function CommandWrites(c: Command, registry: Registry, faults: WriteFaults): seq<EventPayload>
  {
    DomainWrites(Dispatch(c, registry), faults.events) + AckWrites(Outcome(c, registry, faults), faults.acknowledgement)
  }

  /** Everything a sequence of commands, processed in order, appends to the log. */
  function TraceWrites(cs: seq<Command>, registry: Registry, faults: seq<WriteFaults>): seq<EventPayload>
    requires |faults| == |cs|
  {
    if |cs| == 0 then []
    else TraceWrites(cs[..|cs| - 1], registry, faults[..|cs| - 1]) + CommandWrites(cs[|cs| - 1], registry, faults[|cs| - 1])
  }

  /** The number of acknowledgement writes of a trace that succeed. */
  function AckCount(faults: seq<WriteFaults>): nat
  {
    if |faults| == 0 then 0
    else AckCount(faults[..|faults| - 1]) + (if faults[|faults| - 1].acknowledgement.None? then 1 else 0)
  }

  /**
   * The acknowledgements a trace should leave in the log: the final
   * outcome's acknowledgement of every command whose acknowledgement write
   * succeeded, in processing order.
   */
  function AckedOutcomes(cs: seq<Command>, registry: Registry, faults: seq<WriteFaults>): seq<CommandProcessed>
    requires |faults| == |cs|
  {
    if |cs| == 0 then []
    else
      var n := |cs| - 1;
      AckedOutcomes(cs[..n], registry, faults[..n])
        + (if faults[n].acknowledgement.None? then [ToCommandProcessedEvent(Outcome(cs[n], registry, faults[n]))] else [])
  }

  // ---------------------------------------------------------------------
  // Reading acknowledgements back
  // ---------------------------------------------------------------------

  /** The acknowledgements in a log, in log order. */
  function Acks(log: seq<EventPayload>): seq<CommandProcessed>
  {
    if |log| == 0 then []
    else if log[0].CommandProcessedPayload? then [log[0].processed] + Acks(log[1..])
    else Acks(log[1..])
  }

  /** The operation result of the first acknowledgement for `id` in a log, if any. */
  function FirstResultFor(log: seq<EventPayload>, id: CommandId): Option<OperationResult>
  {
    if |log| == 0 then None
    else if log[0].CommandProcessedPayload? && log[0].processed.commandId == id then Some(log[0].processed.operationResult)
    else FirstResultFor(log[1..], id)
  }

  // ---------------------------------------------------------------------
  // The stream, the store and the wake-up signal
  // ---------------------------------------------------------------------

  /**
   * One observer of the stream: the number of commands admitted before it
   * subscribed, whether it is still subscribed, and the commands handed to it.
   */
  datatype Subscription = Subscription(ghost from: nat, active: bool, received: seq<Command>)

  /**
   * A subscription saw exactly the commands admitted from its subscription
   * point on, up to its unsubscription (or up to now while it is active).
   */
  ghost predicate SawFrom(s: Subscription, sent: seq<Command>)
  {
    && s.from + |s.received| <= |sent|
    && s.received == sent[s.from..s.from + |s.received|]
    && (s.active ==> s.from + |s.received| == |sent|)
  }

  /** Hands `c` to every active subscription. */
  function Deliver(ss: seq<Subscription>, c: Command): (r: seq<Subscription>)
    ensures |r| == |ss|
    ensures forall i :: 0 <= i < |ss| ==>
      r[i].from == ss[i].from && r[i].active == ss[i].active &&
      r[i].received == (if ss[i].active then ss[i].received + [c] else ss[i].received)
  {
    seq(|ss|, i requires 0 <= i < |ss| =>
      if ss[i].active then ss[i].(received := ss[i].received + [c]) else ss[i])
  }

  /**
   * The command stream: a hot multicast point. Commands are admitted one at
   * a time; each is handed to the subscriptions active at that moment, and a
   * subscription never sees commands admitted before it subscribed.
   */
  class CommandStream {
    /** Every command admitted, in admission order. */
    ghost var sent: seq<Command>
    /** The observers, in subscription order. */
    var subscriptions: seq<Subscription>

    ghost predicate Valid()
      reads this
    {
      forall i :: 0 <= i < |subscriptions| ==> SawFrom(subscriptions[i], sent)
    }

    constructor ()
      ensures Valid() && sent == [] && subscriptions == []
    {
      sent := [];
      subscriptions := [];
    }

    /** Registers an observer that sees every command admitted from now on. */
    method Subscribe() returns (id: nat)
      requires Valid()
      modifies this
      ensures Valid() && sent == old(sent)
      ensures id == |old(subscriptions)|
      ensures subscriptions == old(subscriptions) + [Subscription(|sent|, true, [])]
    {
      id := |subscriptions|;
      subscriptions := subscriptions + [Subscription(|sent|, true, [])];
    }

    /** Disposes the subscription `id`: it sees nothing admitted afterwards. */
    method Unsubscribe(id: nat)
      requires Valid() && id < |subscriptions|
      modifies this
      ensures Valid() && sent == old(sent)
      ensures subscriptions == old(subscriptions)[id := old(subscriptions)[id].(active := false)]
    {
      subscriptions := subscriptions[id := subscriptions[id].(active := false)];
    }

    /** Admits exactly `c`, once, and hands it to every active subscription. */
    method SendCommand(c: Command)
      requires Valid()
      modifies this
      ensures Valid()
      ensures sent == old(sent) + [c]
      ensures subscriptions == Deliver(old(subscriptions), c)
    {
      sent := sent + [c];
      subscriptions := Deliver(subscriptions, c);
      forall i | 0 <= i < |subscriptions|
        ensures SawFrom(subscriptions[i], sent)
      {
        assert SawFrom(old(subscriptions)[i], old(sent));
      }
    }

    /** Admits every command of the batch, in batch order. */
    method SendCommands(batch: seq<Command>)
      requires Valid()
      modifies this
      ensures Valid()
      ensures sent == old(sent) + batch
      ensures |subscriptions| == |old(subscriptions)|
      ensures forall i :: 0 <= i < |subscriptions| ==>
        subscriptions[i].from == old(subscriptions)[i].from &&
        subscriptions[i].active == old(subscriptions)[i].active &&
        subscriptions[i].received == old(subscriptions)[i].received + (if subscriptions[i].active then batch else [])
    {
      for k := 0 to |batch|
        invariant Valid()
        invariant sent == old(sent) + batch[..k]
        invariant |subscriptions| == |old(subscriptions)|
        invariant forall i :: 0 <= i < |subscriptions| ==>
          subscriptions[i].from == old(subscriptions)[i].from &&
          subscriptions[i].active == old(subscriptions)[i].active &&
          subscriptions[i].received == old(subscriptions)[i].received + (if subscriptions[i].active then batch[..k] else [])
      {
        SendCommand(batch[k]);
        assert batch[..k + 1] == batch[..k] + [batch[k]];
      }
      assert batch[..|batch|] == batch;
    }
  }

  /**
   * Multicast: two active subscriptions see the same commands in the same
   * order, each from its own subscription point on.
   */
  lemma SubscribersAgree(stream: CommandStream, i: nat, j: nat)
    requires stream.Valid()
    requires i < |stream.subscriptions| && j < |stream.subscriptions|
    requires stream.subscriptions[i].active && stream.subscriptions[j].active
    requires stream.subscriptions[i].from <= stream.subscriptions[j].from
    ensures stream.subscriptions[j].received ==
      stream.subscriptions[i].received[stream.subscriptions[j].from - stream.subscriptions[i].from..]
  {
    var si, sj := stream.subscriptions[i], stream.subscriptions[j];
    assert SawFrom(si, stream.sent) && SawFrom(sj, stream.sent);
    var d := sj.from - si.from;
    assert |sj.received| == |si.received| - d;
    forall k | 0 <= k < |sj.received|
      ensures sj.received[k] == si.received[d..][k]
    {
      assert sj.received[k] == stream.sent[sj.from + k];
      assert si.received[d + k] == stream.sent[si.from + d + k];
    }
  }

  /**
   * The event store: an append-only log. Whether a write throws is decided
   * by the environment and passed in as `fault`; a write that throws appends
   * nothing.
   */
  class EventStore {
    var log: seq<EventPayload>

    constructor ()
      ensures log == []
    {
      log := [];
    }

    method WriteEvents(events: seq<EventPayload>, fault: Option<Exception>) returns (thrown: Option<Exception>)
      modifies this
      ensures thrown == fault
      ensures log == if fault.None? then old(log) + events else old(log)
    {
      thrown := fault;
      if fault.None? {
        log := log + events;
      }
    }
  }

  /** The "poll now" hint for store readers; `signals` counts the hints given. */
  class WakeUp {
    var signals: nat

    constructor ()
      ensures signals == 0
    {
      signals := 0;
    }

    method ThereIsWorkToDo()
      modifies this
      ensures signals == old(signals) + 1
    {
      signals := signals + 1;
    }
  }

  // ---------------------------------------------------------------------
  // Processing
  // ---------------------------------------------------------------------

  /**
   * Dispatches `c`, writes the events of a Processed outcome, and returns the
   * outcome, downgraded to Faulted when that write threw.
   */
  method Process(c: Command, registry: Registry, store: EventStore, writeFault: Option<Exception>) returns (r: ProcessingResult)
    modifies store
    ensures r == AfterWrite(Dispatch(c, registry), writeFault)
    ensures store.log == old(store.log) + DomainWrites(Dispatch(c, registry), writeFault)
  {
    var result := Dispatch(c, registry);
    match result
    case Processed(commandId, resultEvents, _, _) =>
      var thrown := store.WriteEvents(ToPayloads(resultEvents), writeFault);
      if thrown.Some? {
        r := Faulted(commandId, thrown.value, None);
      } else {
        r := result;
      }
    case _ =>
      r := result;
  }

  /**
   * The subscriber of processing results: appends the one acknowledgement
   * for `r` and, only when that write succeeded, signals the wake-up. A
   * failing acknowledgement write is swallowed.
   */
  method Acknowledge(r: ProcessingResult, store: EventStore, wakeUp: WakeUp?, ackFault: Option<Exception>)
    modifies store, wakeUp
    ensures store.log == old(store.log) + AckWrites(r, ackFault)
    ensures wakeUp != null ==> wakeUp.signals == old(wakeUp.signals) + (if ackFault.None? then 1 else 0)
  {
    var commandProcessedEvents := [CommandProcessedPayload(ToCommandProcessedEvent(r))];
    var thrown := store.WriteEvents(commandProcessedEvents, ackFault);
    if thrown.None? && wakeUp != null {
      wakeUp.ThereIsWorkToDo();
    }
  }

  /** One command through the subscribed processors: process, then acknowledge. */
  method HandleCommand(c: Command, registry: Registry, store: EventStore, wakeUp: WakeUp?, faults: WriteFaults)
    returns (r: ProcessingResult)
    modifies store, wakeUp
    ensures r == Outcome(c, registry, faults)
    ensures store.log == old(store.log) + CommandWrites(c, registry, faults)
    ensures wakeUp != null ==> wakeUp.signals == old(wakeUp.signals) + (if faults.acknowledgement.None? then 1 else 0)
  {
    r := Process(c, registry, store, faults.events);
    Acknowledge(r, store, wakeUp, faults.acknowledgement);
  }

  /** The processors' subscription handling the commands it received, in order. */
  method HandleCommands(cs: seq<Command>, registry: Registry, store: EventStore, wakeUp: WakeUp?, faults: seq<WriteFaults>)
    requires |faults| == |cs|
    modifies store, wakeUp
    ensures store.log == old(store.log) + TraceWrites(cs, registry, faults)
    ensures wakeUp != null ==> wakeUp.signals == old(wakeUp.signals) + AckCount(faults)
  {
    ghost var start := store.log;
    ghost var startSignals := if wakeUp != null then wakeUp.signals else 0;
    var k := 0;
    while k < |cs|
      invariant k <= |cs|
      invariant store.log == start + TraceWrites(cs[..k], registry, faults[..k])
      invariant wakeUp != null ==> wakeUp.signals == startSignals + AckCount(faults[..k])
    {
      ghost var before := store.log;
      var _ := HandleCommand(cs[k], registry, store, wakeUp, faults[k]);
      TraceWritesExtend(start, before, store.log, cs, registry, faults, k);
      AckCountStep(faults, k);
      k := k + 1;
    }
    WholeTrace(cs, faults);
  }

  /** The whole trace is its longest prefix. */
  lemma WholeTrace(cs: seq<Command>, faults: seq<WriteFaults>)
    requires |faults| == |cs|
    ensures cs[..|cs|] == cs && faults[..|cs|] == faults
  {
  }

  /** Processing one more command of a trace appends what that command writes. */
  lemma TraceWritesStep(cs: seq<Command>, registry: Registry, faults: seq<WriteFaults>, k: nat)
    requires |faults| == |cs| && k < |cs|
    ensures TraceWrites(cs[..k + 1], registry, faults[..k + 1]) ==
      TraceWrites(cs[..k], registry, faults[..k]) + CommandWrites(cs[k], registry, faults[k])
  {
    assert cs[..k + 1][..k] == cs[..k] && faults[..k + 1][..k] == faults[..k];
  }

  /** Counting one more acknowledgement write. */
  lemma AckCountStep(faults: seq<WriteFaults>, k: nat)
    requires k < |faults|
    ensures AckCount(faults[..k + 1]) == AckCount(faults[..k]) + (if faults[k].acknowledgement.None? then 1 else 0)
  {
    assert faults[..k + 1][..k] == faults[..k];
  }

  /** A log holding a trace's writes behind `start`, extended by one more command's writes. */
  lemma TraceWritesExtend(start: seq<EventPayload>, before: seq<EventPayload>, after: seq<EventPayload>,
                          cs: seq<Command>, registry: Registry, faults: seq<WriteFaults>, k: nat)
    requires |faults| == |cs| && k < |cs|
    requires before == start + TraceWrites(cs[..k], registry, faults[..k])
    requires after == before + CommandWrites(cs[k], registry, faults[k])
    ensures after == start + TraceWrites(cs[..k + 1], registry, faults[..k + 1])
  {
    TraceWritesStep(cs, registry, faults, k);
    AppendAssociative(start, TraceWrites(cs[..k], registry, faults[..k]), CommandWrites(cs[k], registry, faults[k]));
  }

  lemma AppendAssociative<T>(a: seq<T>, b: seq<T>, c: seq<T>)
    ensures a + (b + c) == a + b + c
  {
  }

  /**
   * Scans a log from `from` for the first acknowledgement of `id`, returning
   * its operation result, or None when there is none.
   */
  method FirstAcknowledgement(log: seq<EventPayload>, from: nat, id: CommandId) returns (result: Option<OperationResult>)
    requires from <= |log|
    ensures result == FirstResultFor(log[from..], id)
  {
    var i := from;
    while i < |log|
      invariant from <= i <= |log|
      invariant FirstResultFor(log[from..], id) == FirstResultFor(log[i..], id)
    {
      if log[i].CommandProcessedPayload? && log[i].processed.commandId == id {
        return Some(log[i].processed.operationResult);
      }
      assert log[i..][1..] == log[i + 1..];
      i := i + 1;
    }
    return None;
  }

  /**
   * Starts listening for acknowledgements at the current end of the log,
   * then sends `command`; once the processors have handled it, answers with
   * the operation result of the first acknowledgement of `command.id` written
   * since listening began (None: no such acknowledgement, the caller would
   * wait forever).
   */
  method SendCommandAndWaitUntilApplied(stream: CommandStream, command: Command, registry: Registry,
                                        store: EventStore, wakeUp: WakeUp?, faults: WriteFaults)
    returns (result: Option<OperationResult>)
    requires stream.Valid()
    modifies stream, store, wakeUp
    ensures stream.Valid() && stream.sent == old(stream.sent) + [command]
    ensures stream.subscriptions == Deliver(old(stream.subscriptions), command)
    ensures store.log == old(store.log) + CommandWrites(command, registry, faults)
    ensures wakeUp != null ==> wakeUp.signals == old(wakeUp.signals) + (if faults.acknowledgement.None? then 1 else 0)
    ensures result == FirstResultFor(CommandWrites(command, registry, faults), command.id)
  {
    var listenFrom := |store.log|;
    stream.SendCommand(command);
    var _ := HandleCommand(command, registry, store, wakeUp, faults);
    result := FirstAcknowledgement(store.log, listenFrom, command.id);
    assert store.log[listenFrom..] == CommandWrites(command, registry, faults);
  }

  // ---------------------------------------------------------------------
  // Properties
  // ---------------------------------------------------------------------

  /**
   * No partial success: an Ok acknowledgement is only ever written for a
   * Processed outcome whose events were all appended to the log.
   */
  lemma NoPartialSuccess(p: ProcessingResult, fault: Option<Exception>)
    requires ToCommandProcessedEvent(AfterWrite(p, fault)).operationResult.Ok?
    ensures p.Processed? && p.functionalResult.Ok? && fault.None?
    ensures DomainWrites(p, fault) == ToPayloads(p.resultEvents)
  {
  }

  /** A failed write of a handler's events is reported to the caller as an internal error. */
  lemma WriteFailureIsInternalError(p: ProcessingResult, fault: Option<Exception>)
    requires p.Processed? && fault.Some?
    ensures ToCommandProcessedEvent(AfterWrite(p, fault)).operationResult
      == InternalError(FaultedMessagePrefix + fault.value.text)
  {
  }

  /** The log holds no acknowledgement among a handler's events. */
  lemma {:induction false} NoAcksInPayloads(events: seq<DomainEvent>, id: CommandId)
    ensures Acks(ToPayloads(events)) == []
    ensures FirstResultFor(ToPayloads(events), id) == None
  {
    if |events| > 0 {
      assert ToPayloads(events)[1..] == ToPayloads(events[1..]);
      NoAcksInPayloads(events[1..], id);
    }
  }

  /** Searching a concatenation: the first log is searched first. */
  lemma {:induction false} FirstResultForAppend(a: seq<EventPayload>, b: seq<EventPayload>, id: CommandId)
    ensures FirstResultFor(a + b, id) == if FirstResultFor(a, id).Some? then FirstResultFor(a, id) else FirstResultFor(b, id)
  {
    if |a| > 0 {
      assert (a + b)[1..] == a[1..] + b;
      FirstResultForAppend(a[1..], b, id);
    } else {
      assert a + b == b;
    }
  }

  /** The acknowledgements of a concatenation. */
  lemma {:induction false} AcksAppend(a: seq<EventPayload>, b: seq<EventPayload>)
    ensures Acks(a + b) == Acks(a) + Acks(b)
  {
    if |a| > 0 {
      assert (a + b)[1..] == a[1..] + b;
      AcksAppend(a[1..], b);
    } else {
      assert a + b == b;
    }
  }

  /** The acknowledgements one command writes: exactly one, unless its write threw. */
  lemma CommandAcks(c: Command, registry: Registry, faults: WriteFaults)
    ensures Acks(CommandWrites(c, registry, faults)) ==
      if faults.acknowledgement.None? then [ToCommandProcessedEvent(Outcome(c, registry, faults))] else []
  {
    var p := Dispatch(c, registry);
    AcksAppend(DomainWrites(p, faults.events), AckWrites(Outcome(c, registry, faults), faults.acknowledgement));
    if p.Processed? && faults.events.None? {
      NoAcksInPayloads(p.resultEvents, c.id);
    }
  }

  /**
   * The waiter's answer: when the acknowledgement write succeeds and the
   * processors keep command ids, the waiter gets the operation result of its
   * own command's outcome; when that write throws it gets nothing.
   */
  lemma WaiterGetsOwnResult(c: Command, registry: Registry, faults: WriteFaults)
    requires KeepsCommandIds(registry)
    ensures faults.acknowledgement.None? ==>
      FirstResultFor(CommandWrites(c, registry, faults), c.id) ==
        Some(ToCommandProcessedEvent(Outcome(c, registry, faults)).operationResult)
    ensures faults.acknowledgement.Some? ==> FirstResultFor(CommandWrites(c, registry, faults), c.id) == None
  {
    var p := Dispatch(c, registry);
    var d := DomainWrites(p, faults.events);
    var a := AckWrites(Outcome(c, registry, faults), faults.acknowledgement);
    FirstResultForAppend(d, a, c.id);
    if p.Processed? && faults.events.None? {
      NoAcksInPayloads(p.resultEvents, c.id);
    }
  }

  /**
   * Each command of a trace gets exactly one acknowledgement, written in
   * processing order, when every acknowledgement write succeeds.
   */
  lemma {:induction false} OneAcknowledgementPerCommand(cs: seq<Command>, registry: Registry, faults: seq<WriteFaults>)
    requires |faults| == |cs|
    requires forall i :: 0 <= i < |cs| ==> faults[i].acknowledgement.None?
    ensures |Acks(TraceWrites(cs, registry, faults))| == |cs|
    ensures forall i :: 0 <= i < |cs| ==>
      Acks(TraceWrites(cs, registry, faults))[i] == ToCommandProcessedEvent(Outcome(cs[i], registry, faults[i]))
  {
    AcknowledgementsOfTrace(cs, registry, faults);
    AllAcknowledged(cs, registry, faults);
  }

  /** With no failing acknowledgement write, every command of the trace is acknowledged, in order. */
  lemma {:induction false} AllAcknowledged(cs: seq<Command>, registry: Registry, faults: seq<WriteFaults>)
    requires |faults| == |cs|
    requires forall i :: 0 <= i < |cs| ==> faults[i].acknowledgement.None?
    ensures |AckedOutcomes(cs, registry, faults)| == |cs|
    ensures forall i :: 0 <= i < |cs| ==>
      AckedOutcomes(cs, registry, faults)[i] == ToCommandProcessedEvent(Outcome(cs[i], registry, faults[i]))
  {
    if |cs| > 0 {
      var n := |cs| - 1;
      assert forall i :: 0 <= i < n ==> cs[..n][i] == cs[i] && faults[..n][i] == faults[i];
      AllAcknowledged(cs[..n], registry, faults[..n]);
      var all := AckedOutcomes(cs, registry, faults);
      assert all == AckedOutcomes(cs[..n], registry, faults[..n]) + [ToCommandProcessedEvent(Outcome(cs[n], registry, faults[n]))];
      forall i | 0 <= i < |cs|
        ensures all[i] == ToCommandProcessedEvent(Outcome(cs[i], registry, faults[i]))
      {
      }
    }
  }


  /**
   * Best effort over a whole trace: the log holds, in processing order, the
   * acknowledgement of every command whose acknowledgement write succeeded
   * and of no other, so there are as many acknowledgements as wake-up signals.
   */
  lemma {:induction false} AcknowledgementsOfTrace(cs: seq<Command>, registry: Registry, faults: seq<WriteFaults>)
    requires |faults| == |cs|
    ensures Acks(TraceWrites(cs, registry, faults)) == AckedOutcomes(cs, registry, faults)
    ensures |AckedOutcomes(cs, registry, faults)| == AckCount(faults)
  {
    if |cs| > 0 {
      var n := |cs| - 1;
      var prev := TraceWrites(cs[..n], registry, faults[..n]);
      var w := CommandWrites(cs[n], registry, faults[n]);
      assert TraceWrites(cs, registry, faults) == prev + w;
      AcknowledgementsOfTrace(cs[..n], registry, faults[..n]);
      AcksAppend(prev, w);
      CommandAcks(cs[n], registry, faults[n]);
    }
  }

  /**
   * Replaying the log: when no earlier acknowledgement carries the command's
   * id, reading the whole log from its start yields what the waiter got,
   * whatever was written afterwards.
   */
  lemma ReplayAgreesWithWaiter(before: seq<EventPayload>, c: Command, registry: Registry, faults: WriteFaults,
                               after: seq<EventPayload>)
    requires KeepsCommandIds(registry) && faults.acknowledgement.None?
    requires FirstResultFor(before, c.id) == None
    ensures FirstResultFor(before + CommandWrites(c, registry, faults) + after, c.id) ==
      FirstResultFor(CommandWrites(c, registry, faults), c.id)
  {
    var w := CommandWrites(c, registry, faults);
    WaiterGetsOwnResult(c, registry, faults);
    FirstResultForAppend(before + w, after, c.id);
    FirstResultForAppend(before, w, c.id);
  }

  /** A command's acknowledgement is the last thing it writes; everything before it is a domain event. */
  lemma AcknowledgementComesLast(c: Command, registry: Registry, faults: WriteFaults)
    requires faults.acknowledgement.None?
    ensures var w := CommandWrites(c, registry, faults);
      && |w| > 0
      && w[|w| - 1] == CommandProcessedPayload(ToCommandProcessedEvent(Outcome(c, registry, faults)))
      && forall i :: 0 <= i < |w| - 1 ==> w[i].DomainPayload?
  {
  }
}
