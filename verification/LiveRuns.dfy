/** Safety over whole runs of commands, and replay of their event logs. */
module LiveRuns {
  import Histories
  import opened Domain
  import opened BookState
  import opened BookInvariants
  import opened Matching
  import opened EngineRuns

  // ----- one command -----

  lemma DecisionSound(b: Book, command: EngineCommand)
    requires LogInv(b) && Decision(b, command).Ok?
    ensures AllSound(b, Decision(b, command).value)
    ensures Uncrossed(b) ==> Uncrossed(Replay(b, Decision(b, command).value))
  {
    if command.commandId in b.processed {
    } else {
      match command.kind
      case PlaceLimitOrder(intent) =>
        PlaceSound(b, command, intent);
        if Uncrossed(b) {
          PlaceUncrossed(b, command, intent, Replay(b, DecidePlace(b, command, intent).value));
        }
      case CancelOrder(id) =>
        var e := CloseSound(b, command, id);
        if Uncrossed(b) {
          ShrinksUncrossed(b, Replay(b, [e]));
        }
      case ExpireOrder(id) =>
        var e := CloseSound(b, command, id);
        if Uncrossed(b) {
          ShrinksUncrossed(b, Replay(b, [e]));
        }
    }
  }

  lemma SoundApplies(b: Book, events: seq<EngineEvent>)
    requires AllSound(b, events)
    ensures AllApply(b, events) && LogInv(Replay(b, events))
  {
    Histories.ThroughoutWeaken(Apply, Applies, LogInv, _ => true, b, events);
    Histories.ThroughoutLast(Apply, Applies, LogInv, b, events);
  }

  /**
   * Processing is all or nothing in every live state: a command either fails without changing the
   * book, or all the events it decided are applied. An uncrossed book stays uncrossed.
   */
  lemma ProcessAllOrNothing(b: Book, command: EngineCommand)
    requires LogInv(b)
    ensures var outcome := ProcessOutcome(b, command);
            && (outcome.Err? ==> Process(b, command) == b)
            && (outcome.Ok? ==> AllSound(b, outcome.value) && Process(b, command) == Replay(b, outcome.value))
    ensures ProcessOutcome(b, command) == Decision(b, command)
    ensures LogInv(Process(b, command))
    ensures Uncrossed(b) ==> Uncrossed(Process(b, command))
  {
    if Decision(b, command).Ok? {
      var events := Decision(b, command).value;
      DecisionSound(b, command);
      SoundApplies(b, events);
      DrainAll(b, events);
    }
  }

  // ----- runs -----

  function LiveBook(market: MarketId, commands: seq<EngineCommand>): Book {
    if commands == [] then NewBook(market)
    else Process(LiveBook(market, commands[..|commands| - 1]), commands[|commands| - 1])
  }

  function Emitted(b: Book, command: EngineCommand): seq<EngineEvent> {
    match ProcessOutcome(b, command)
    case Ok(events) => events
    case Err(_) => []
  }

  /** The events of a run, in the order the engine returned them. */
  function LiveLog(market: MarketId, commands: seq<EngineCommand>): seq<EngineEvent> {
    if commands == [] then []
    else
      var before := commands[..|commands| - 1];
      LiveLog(market, before) + Emitted(LiveBook(market, before), commands[|commands| - 1])
  }

  /** After any run of commands, failed ones included, the book is sound and uncrossed, and the log replays to it. */
  lemma {:induction false} RunsAreSafe(market: MarketId, commands: seq<EngineCommand>)
    ensures var live := LiveBook(market, commands);
            LogInv(live) && Uncrossed(live)
    ensures AllSound(NewBook(market), LiveLog(market, commands))
    ensures Replay(NewBook(market), LiveLog(market, commands)) == LiveBook(market, commands)
    decreases |commands|
  {
    if commands == [] {
      assert InScope(NewBook(market), 0, 0);
    } else {
      var before, command := commands[..|commands| - 1], commands[|commands| - 1];
      RunsAreSafe(market, before);
      var b, log := LiveBook(market, before), LiveLog(market, before);
      ProcessAllOrNothing(b, command);
      if ProcessOutcome(b, command).Ok? {
        var events := ProcessOutcome(b, command).value;
        Histories.ThroughoutConcat(Apply, Applies, LogInv, NewBook(market), log, events);
        Histories.RunConcat(Apply, NewBook(market), log, events);
      } else {
        assert log + [] == log;
      }
    }
  }

  lemma LogReplays(market: MarketId, commands: seq<EngineCommand>)
    ensures Replay(NewBook(market), LiveLog(market, commands)) == LiveBook(market, commands)
  {
    RunsAreSafe(market, commands);
  }

  lemma LogApplies(market: MarketId, commands: seq<EngineCommand>)
    ensures AllApply(NewBook(market), LiveLog(market, commands))
  {
    RunsAreSafe(market, commands);
    SoundApplies(NewBook(market), LiveLog(market, commands));
  }

  /** Wherever a log is cut, also between the events of one command, the book is sound. */
  lemma CutsAreSound(market: MarketId, commands: seq<EngineCommand>, k: nat)
    requires k <= |LiveLog(market, commands)|
    ensures LogInv(Replay(NewBook(market), LiveLog(market, commands)[..k]))
    ensures AllApply(NewBook(market), LiveLog(market, commands)[..k])
  {
    RunsAreSafe(market, commands);
    var log := LiveLog(market, commands);
    assert log == log[..k] + log[k..];
    Histories.ThroughoutConcat(Apply, Applies, LogInv, NewBook(market), log[..k], log[k..]);
    SoundApplies(NewBook(market), log[..k]);
  }

  // ----- at-least-once delivery -----

  /** The log in order, with any already delivered event delivered again at any later point. */
  ghost predicate Delivery(log: seq<EngineEvent>, delivered: seq<EngineEvent>)
    decreases |delivered|
  {
    if delivered == [] then log == []
    else
      var rest, e := delivered[..|delivered| - 1], delivered[|delivered| - 1];
      || (e in log && Delivery(log, rest))
      || (log != [] && log[|log| - 1] == e && Delivery(log[..|log| - 1], rest))
  }

  lemma ApplyMarks(b: Book, e: EngineEvent) returns (c: Book)
    ensures c == Apply(b, e) && b.applied <= c.applied
    ensures Applies(b, e) ==> e.eventId in c.applied
  {
    c := Apply(b, e);
    if Applies(b, e) {
      assert Effect(b, e.payload).applied == b.applied;
    }
  }

  lemma {:induction false} AppliedGrows(b: Book, events: seq<EngineEvent>)
    ensures b.applied <= Replay(b, events).applied
    ensures AllApply(b, events) ==> forall e :: e in events ==> e.eventId in Replay(b, events).applied
    decreases |events|
  {
    if events != [] {
      var c := ApplyMarks(b, events[0]);
      AppliedGrows(c, events[1..]);
      assert forall e :: e in events ==> e == events[0] || e in events[1..];
    }
  }

  lemma ReplayLast(b: Book, events: seq<EngineEvent>)
    requires events != []
    ensures var n := |events| - 1;
            Replay(b, events) == Apply(Replay(b, events[..n]), events[n])
    ensures AllApply(b, events) ==> AllApply(b, events[..|events| - 1])
  {
    var n := |events| - 1;
    assert events == events[..n] + [events[n]];
    Histories.RunSnoc(Apply, b, events[..n], events[n]);
    Histories.ThroughoutConcat(Apply, Applies, _ => true, b, events[..n], [events[n]]);
  }

  /** Replaying the log leaves each of its events marked as applied as soon as it is delivered. */
  ghost predicate AllSeen(b: Book, log: seq<EngineEvent>)
    decreases |log|
  {
    log != [] ==> AllSeen(b, log[..|log| - 1]) && log[|log| - 1].eventId in Replay(b, log).applied
  }

  lemma LastMarks(b: Book, log: seq<EngineEvent>)
    requires log != []
    ensures Replay(b, log[..|log| - 1]).applied <= Replay(b, log).applied
  {
    ReplayLast(b, log);
    var c := ApplyMarks(Replay(b, log[..|log| - 1]), log[|log| - 1]);
  }

  lemma {:induction false} SeenApplied(b: Book, log: seq<EngineEvent>)
    requires AllSeen(b, log)
    ensures forall e :: e in log ==> e.eventId in Replay(b, log).applied
    decreases |log|
  {
    if log != [] {
      var n := |log| - 1;
      SeenApplied(b, log[..n]);
      LastMarks(b, log);
      forall e | e in log ensures e.eventId in Replay(b, log).applied {
        assert e in log[..n] || e == log[n];
      }
    }
  }

  lemma {:induction false} AcceptedSeen(b: Book, log: seq<EngineEvent>)
    requires AllApply(b, log)
    ensures AllSeen(b, log)
    decreases |log|
  {
    if log != [] {
      ReplayLast(b, log);
      AcceptedSeen(b, log[..|log| - 1]);
      AppliedGrows(b, log);
    }
  }

  /** Repeated deliveries do not matter, also where part of the log was applied before. */
  lemma {:induction false} DeliverySeen(b: Book, log: seq<EngineEvent>, delivered: seq<EngineEvent>)
    requires AllSeen(b, log) && Delivery(log, delivered)
    ensures Replay(b, delivered) == Replay(b, log)
    decreases |delivered|
  {
    if delivered != [] {
      var n := |delivered| - 1;
      var rest, e := delivered[..n], delivered[n];
      ReplayLast(b, delivered);
      if e in log && Delivery(log, rest) {
        DeliverySeen(b, log, rest);
        SeenApplied(b, log);
      } else {
        ReplayLast(b, log);
        DeliverySeen(b, log[..|log| - 1], rest);
      }
    }
  }

  /** Repeated deliveries do not matter. */
  lemma DeliveryReplays(b: Book, log: seq<EngineEvent>, delivered: seq<EngineEvent>)
    requires AllApply(b, log) && Delivery(log, delivered)
    ensures Replay(b, delivered) == Replay(b, log)
  {
    AcceptedSeen(b, log);
    DeliverySeen(b, log, delivered);
  }

  /** Any at-least-once, in-order delivery of a live run's events rebuilds the whole live book in a fresh one. */
  lemma ReplayEqualsLive(market: MarketId, commands: seq<EngineCommand>, delivered: seq<EngineEvent>)
    requires Delivery(LiveLog(market, commands), delivered)
    ensures Replay(NewBook(market), delivered) == LiveBook(market, commands)
  {
    RunsAreSafe(market, commands);
    SoundApplies(NewBook(market), LiveLog(market, commands));
    DeliveryReplays(NewBook(market), LiveLog(market, commands), delivered);
  }
}
