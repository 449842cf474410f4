/**
 * The request table of a requestor and what one call does to it.
 *
 * `Register` is what `getReceiveFuture` does to the table, `Dispatch` what
 * `onMessage` does with one inbound reply. `Run` strings calls of both
 * together; the lemmas at the end are about such sequences: replies for one
 * correlation ID leave every other entry alone, a handler is handed no reply
 * after the one it reported complete, and a reply whose entry is gone is
 * dropped as unknown.
 */
module Correlation {
  import opened Wrappers
  import opened Jms

  /** A pending reply handler; only its identity matters here. */
  class FutureHandler {
    constructor () {}
  }

  /** What the table holds under a correlation ID. */
  datatype Entry = Entry(handler: FutureHandler, timeout: Long)

  type RequestTable = map<string, Entry>

  /** What `ReplyHandler.handle` reports when it is invoked. */
  datatype HandleResult = Complete | Incomplete | Threw(cause: JmsException)

  /** The runtime exception `onMessage` throws, with the message it could not process. */
  datatype FailedToProcessResponse = FailedToProcessResponse(response: Message, cause: JmsException)

  /** Which way `onMessage` went for one message. */
  datatype Outcome =
    | IgnoredNoCorrelationId
    | IgnoredUnknownCorrelationId(id: string)
    | Handled(id: string, handler: FutureHandler, complete: bool)
    | HandlerFailed(id: string, handler: FutureHandler, error: FailedToProcessResponse)
    | ReadFailed(error: FailedToProcessResponse)
  {
    /** The message was handed to a handler. */
    predicate Invoked() { Handled? || HandlerFailed? }

    predicate Invokes(h: FutureHandler) { Invoked() && handler == h }

    /** `h` was handed the message and reported that it is done. */
    predicate Completes(h: FutureHandler) { Handled? && complete && handler == h }

    /** `onMessage` ended by throwing `FailedToProcessResponse`. */
    predicate Throws() { HandlerFailed? || ReadFailed? }
  }

  datatype Step = Step(table: RequestTable, outcome: Outcome)

  /** Some entry of `table` holds `h`. */
  predicate Holds(table: RequestTable, h: FutureHandler) {
    exists id :: id in table && table[id].handler == h
  }

  /** No handler is stored under two correlation IDs. */
  ghost predicate HandlersDistinct(table: RequestTable) {
    forall id1, id2 :: id1 in table && id2 in table && table[id1].handler == table[id2].handler ==> id1 == id2
  }

  /** At most one correlation ID leads to `h`. */
  ghost predicate HeldAtMostOnce(table: RequestTable, h: FutureHandler) {
    forall id1, id2 :: id1 in table && id2 in table && table[id1].handler == h && table[id2].handler == h ==> id1 == id2
  }

  /**
   * `requestMap.put(id, handler, timeout)`: the ID now leads to the new handler
   * and its timeout; a previous entry for the ID is replaced; every other entry
   * stays as it was.
   */
  function Register(table: RequestTable, id: string, handler: FutureHandler, timeout: Long): (t: RequestTable)
    ensures id in t && t[id] == Entry(handler, timeout)
    ensures t.Keys == table.Keys + {id}
    ensures forall other :: other in table && other != id ==> t[other] == table[other]
  {
    table[id := Entry(handler, timeout)]
  }

  /**
   * `onMessage(message)` for a handler that reports `handled` if it is invoked.
   */
  function Dispatch(table: RequestTable, message: Message, handled: HandleResult): (s: Step)
    // a reply never adds or edits an entry; at most it removes one
    ensures s.table.Keys <= table.Keys
    ensures forall id :: id in s.table ==> s.table[id] == table[id]
    // and it removes one exactly when the handler reports completion
    ensures s.table != table <==> s.outcome.Handled? && s.outcome.complete
    ensures s.outcome.Handled? && s.outcome.complete ==> s.table == table - {s.outcome.id}
    // the three ways a message is not handed to anyone
    ensures s.outcome.IgnoredNoCorrelationId? <==> message.correlation.NoCorrelationId?
    ensures s.outcome.ReadFailed? <==> message.correlation.Unreadable?
    ensures s.outcome.IgnoredUnknownCorrelationId? <==>
              message.correlation.CorrelationId? && message.correlation.id !in table
    ensures s.outcome.IgnoredUnknownCorrelationId? ==> s.outcome.id == message.correlation.id
    // otherwise it goes to the handler registered under its own correlation ID
    ensures s.outcome.Invoked() <==> message.correlation.CorrelationId? && message.correlation.id in table
    ensures s.outcome.Invoked() ==>
              message.correlation == CorrelationId(s.outcome.id) && s.outcome.id in table &&
              s.outcome.handler == table[s.outcome.id].handler
    ensures s.outcome.Handled? <==> s.outcome.Invoked() && !handled.Threw?
    ensures s.outcome.Handled? ==> s.outcome.complete == handled.Complete?
    // a failure carries the message and the exception that caused it
    ensures s.outcome.Throws() ==> s.outcome.error.response == message
    ensures s.outcome.ReadFailed? ==> s.outcome.error.cause == message.correlation.cause
    ensures s.outcome.HandlerFailed? ==> handled == Threw(s.outcome.error.cause)
  {
    match message.correlation
    case NoCorrelationId => Step(table, IgnoredNoCorrelationId)
    case Unreadable(cause) => Step(table, ReadFailed(FailedToProcessResponse(message, cause)))
    case CorrelationId(id) =>
      if id !in table then
        Step(table, IgnoredUnknownCorrelationId(id))
      else
        var handler := table[id].handler;
        match handled
        case Complete => Step(table - {id}, Handled(id, handler, true))
        case Incomplete => Step(table, Handled(id, handler, false))
        case Threw(cause) => Step(table, HandlerFailed(id, handler, FailedToProcessResponse(message, cause)))
  }

  /** A second reply after one whose handler completed is a reply for an unknown ID. */
  lemma DuplicateReplyIsUnknown(table: RequestTable, message: Message, first: HandleResult, second: HandleResult)
    requires Dispatch(table, message, first).outcome.Handled?
    requires Dispatch(table, message, first).outcome.complete
    ensures var after := Dispatch(table, message, first).table;
            Dispatch(after, message, second) == Step(after, IgnoredUnknownCorrelationId(message.correlation.id))
  {
  }

  /** A handler that did not complete keeps its entry, and the next reply reaches it again. */
  lemma PendingHandlerStillReachable(table: RequestTable, message: Message, first: HandleResult, second: HandleResult)
    requires Dispatch(table, message, first).outcome.Invoked()
    requires !first.Complete?
    ensures var s := Dispatch(table, message, first);
            s.table == table &&
            Dispatch(s.table, message, second).outcome.Invokes(s.outcome.handler)
  {
  }

  /** One call on the requestor. */
  datatype Event =
    | Request(id: string, timeout: Long, handler: FutureHandler)   // getReceiveFuture, creating `handler`
    | Reply(message: Message, handled: HandleResult)              // onMessage

  /** What one call gives back: the new future, or how the reply was dealt with. */
  datatype Effect = Registered(future: FutureHandler) | Replied(outcome: Outcome)
  {
    predicate Invokes(h: FutureHandler) { Replied? && outcome.Invokes(h) }

    predicate Completes(h: FutureHandler) { Replied? && outcome.Completes(h) }
  }

  datatype Trace = Trace(table: RequestTable, effects: seq<Effect>)

  function Apply(table: RequestTable, event: Event): (RequestTable, Effect)
  {
    match event
    case Request(id, timeout, handler) => (Register(table, id, handler, timeout), Registered(handler))
    case Reply(message, handled) =>
      var s := Dispatch(table, message, handled);
      (s.table, Replied(s.outcome))
  }

  /** The calls of `events`, one after the other, starting from `table`. */
  function Run(table: RequestTable, events: seq<Event>): (t: Trace)
    ensures |t.effects| == |events|
    decreases |events|
  {
    if events == [] then Trace(table, [])
    else
      var next, effect := Apply(table, events[0]).0, Apply(table, events[0]).1;
      var rest := Run(next, events[1..]);
      Trace(rest.table, [effect] + rest.effects)
  }

  /** `event` is a call that concerns correlation ID `id`. */
  predicate Mentions(event: Event, id: string) {
    match event
    case Request(rid, _, _) => rid == id
    case Reply(message, _) => message.correlation == CorrelationId(id)
  }

  /** No call in `events` creates the handler `h`. */
  predicate NeverRegisters(events: seq<Event>, h: FutureHandler) {
    forall i :: 0 <= i < |events| && events[i].Request? ==> events[i].handler != h
  }

  /**
   * Calls about other correlation IDs, malformed replies included, leave
   * the entry of `id` exactly as it was.
   */
  lemma {:induction false} OtherEntriesUntouched(table: RequestTable, events: seq<Event>, id: string)
    requires forall i :: 0 <= i < |events| ==> !Mentions(events[i], id)
    ensures var after := Run(table, events).table;
            (id in after <==> id in table) && (id in table ==> after[id] == table[id])
    decreases |events|
  {
    if events != [] {
      var next := Apply(table, events[0]).0;
      assert !Mentions(events[0], id);
      OtherEntriesUntouched(next, events[1..], id);
    }
  }

  /**
   * Once the entry of `id` is gone, every reply for `id` is dropped as one for
   * an unknown correlation ID until `id` is registered again.
   */
  lemma {:induction false} LateRepliesAreUnknown(table: RequestTable, events: seq<Event>, id: string)
    requires id !in table
    requires forall i :: 0 <= i < |events| ==> !(events[i].Request? && events[i].id == id)
    ensures var effects := Run(table, events).effects;
            forall i :: 0 <= i < |events| && Mentions(events[i], id) ==>
              effects[i] == Replied(IgnoredUnknownCorrelationId(id))
    ensures id !in Run(table, events).table
    decreases |events|
  {
    if events != [] {
      var next, effect := Apply(table, events[0]).0, Apply(table, events[0]).1;
      var rest := Run(next, events[1..]);
      assert !(events[0].Request? && events[0].id == id);
      LateRepliesAreUnknown(next, events[1..], id);
      var effects := Run(table, events).effects;
      assert effects == [effect] + rest.effects;
      forall i | 0 <= i < |events| && Mentions(events[i], id)
        ensures effects[i] == Replied(IgnoredUnknownCorrelationId(id))
      {
        if i > 0 {
          assert events[1..][i - 1] == events[i];
        }
      }
    }
  }

  /** A handler that no entry holds and no call creates is never handed a reply. */
  lemma {:induction false} ReleasedHandlerNeverInvoked(table: RequestTable, events: seq<Event>, h: FutureHandler)
    requires !Holds(table, h)
    requires NeverRegisters(events, h)
    ensures var effects := Run(table, events).effects;
            forall i :: 0 <= i < |effects| ==> !effects[i].Invokes(h)
    decreases |events|
  {
    if events != [] {
      var next, effect := Apply(table, events[0]).0, Apply(table, events[0]).1;
      var rest := Run(next, events[1..]);
      assert !Holds(next, h);
      assert NeverRegisters(events[1..], h) by {
        forall i | 0 <= i < |events[1..]| && events[1..][i].Request?
          ensures events[1..][i].handler != h
        {
          assert events[1..][i] == events[i + 1];
        }
      }
      ReleasedHandlerNeverInvoked(next, events[1..], h);
      assert var fx := Run(next, events[1..]).effects; forall k :: 0 <= k < |fx| ==> !fx[k].Invokes(h);
      var effects := Run(table, events).effects;
      assert effects == [effect] + rest.effects;
      forall i | 0 <= i < |effects| ensures !effects[i].Invokes(h) {
        if i > 0 {
          assert effects[i] == rest.effects[i - 1];
        }
      }
    }
  }

  /**
   * A handler is handed no reply after the one it reported complete: it
   * completes at most once, and a second reply never reaches it.
   */
  lemma {:induction false} NoReplyAfterCompletion(table: RequestTable, events: seq<Event>, h: FutureHandler)
    requires HeldAtMostOnce(table, h)
    requires NeverRegisters(events, h)
    ensures var effects := Run(table, events).effects;
            forall i, j :: 0 <= i < j < |effects| && effects[i].Completes(h) ==> !effects[j].Invokes(h)
    decreases |events|
  {
    if events != [] {
      var next, effect := Apply(table, events[0]).0, Apply(table, events[0]).1;
      var rest := Run(next, events[1..]);
      assert NeverRegisters(events[1..], h) by {
        forall i | 0 <= i < |events[1..]| && events[1..][i].Request?
          ensures events[1..][i].handler != h
        {
          assert events[1..][i] == events[i + 1];
        }
      }
      assert HeldAtMostOnce(next, h);
      NoReplyAfterCompletion(next, events[1..], h);
      assert var fx := Run(next, events[1..]).effects;
             forall i, j :: 0 <= i < j < |fx| && fx[i].Completes(h) ==> !fx[j].Invokes(h);
      if effect.Completes(h) {
        var id := effect.outcome.id;
        assert next == table - {id};
        assert !Holds(next, h);
        ReleasedHandlerNeverInvoked(next, events[1..], h);
        assert var fx := Run(next, events[1..]).effects; forall k :: 0 <= k < |fx| ==> !fx[k].Invokes(h);
      }
      var effects := Run(table, events).effects;
      assert effects == [effect] + rest.effects;
      forall i, j | 0 <= i < j < |effects| && effects[i].Completes(h)
        ensures !effects[j].Invokes(h)
      {
        assert effects[j] == rest.effects[j - 1];
        if i > 0 {
          assert effects[i] == rest.effects[i - 1];
        }
      }
    }
  }
}
