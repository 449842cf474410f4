/**
 * The requestor: a table of pending reply handlers keyed by correlation ID,
 * the listener container it creates on first use, and the reply queue that
 * container's destination resolver hands back.
 */
module Requestor {
  import opened Wrappers
  import opened Jms
  import opened Correlation

  /** What the requestor appends to the configured client ID. */
  const RequestorSuffix: string := ".Requestor"

  /**
   * The client ID the requestor's own listener container uses: none when the
   * configuration has none, else the configured one with the suffix appended,
   * so that it never clashes with the configured ID itself.
   */
  function RequestorClientId(clientId: Option<string>): (r: Option<string>)
    ensures r.Some? <==> clientId.Some?
    ensures r.Some? ==> r.value != clientId.value && |r.value| == |clientId.value| + |RequestorSuffix|
  {
    match clientId
    case None => None
    case Some(id) => Some(id + RequestorSuffix)
  }

  /** The configured client ID a requestor client ID was made from, if it is one. */
  function ConfiguredClientId(requestorId: string): (r: Option<string>)
    ensures r.Some? ==> |r.value| + |RequestorSuffix| == |requestorId|
  {
    var n := |requestorId| - |RequestorSuffix|;
    if 0 <= n && requestorId[n..] == RequestorSuffix then Some(requestorId[..n]) else None
  }

  /** The suffix can always be taken off again. */
  lemma RequestorClientIdRoundTrip(clientId: Option<string>)
    ensures RequestorClientId(clientId).Some? ==> ConfiguredClientId(RequestorClientId(clientId).value) == clientId
  {
  }

  /** Two endpoints configured with different client IDs give their requestors different ones. */
  lemma RequestorClientIdInjective(a: Option<string>, b: Option<string>)
    requires RequestorClientId(a) == RequestorClientId(b)
    ensures a == b
  {
    RequestorClientIdRoundTrip(a);
    RequestorClientIdRoundTrip(b);
  }

  /** The Spring listener container, with the settings the requestor gives it. */
  class ListenerContainer {
    var destinationName: string
    var clientId: Option<string>
    var messageListener: Requestor?
    var autoStartup: bool
    var pubSubDomain: bool
    var subscriptionDurable: bool
    var concurrentConsumers: int

    /** A fresh container has no client ID and no listener. */
    constructor ()
      ensures clientId == None && messageListener == null
    {
      clientId := None;
      messageListener := null;
    }
  }

  class Requestor {
    const configuration: JmsConfiguration
    var listenerContainer: ListenerContainer?
    var requestMap: RequestTable
    var replyTo: TemporaryQueue?
    /** The handlers that have reported completion of their request. */
    ghost var completed: set<FutureHandler>

    /**
     * Each handler sits under one correlation ID at most, and none of them
     * has completed yet.
     */
    ghost predicate Valid()
      reads this
    {
      && HandlersDistinct(requestMap)
      && forall id :: id in requestMap ==> requestMap[id].handler !in completed
    }

    constructor (configuration: JmsConfiguration)
      ensures Valid()
      ensures this.configuration == configuration
      ensures requestMap == map[] && listenerContainer == null && replyTo == null
      ensures completed == {}
    {
      this.configuration := configuration;
      listenerContainer := null;
      requestMap := map[];
      replyTo := null;
      completed := {};
    }

    /**
     * Creates a new handler and registers it under `correlationId` with the
     * request's timeout; the handler is what the caller waits on.
     */
    method GetReceiveFuture(correlationId: string, requestTimeout: Long) returns (future: FutureHandler)
      requires Valid()
      modifies this`requestMap
      ensures Valid()
      ensures fresh(future)
      ensures requestMap == Register(old(requestMap), correlationId, future, requestTimeout)
    {
      var futureHandler := new FutureHandler();
      future := futureHandler;
      requestMap := requestMap[correlationId := Entry(futureHandler, requestTimeout)];
    }

    /**
     * Hands an inbound reply to the handler registered under its correlation
     * ID, where `handled` is what that handler reports if it is invoked.
     */
    method OnMessage(message: Message, handled: HandleResult) returns (outcome: Outcome)
      requires Valid()
      modifies this`requestMap, this`completed
      ensures Valid()
      ensures Step(requestMap, outcome) == Dispatch(old(requestMap), message, handled)
      ensures outcome.Invoked() ==> outcome.handler !in old(completed)
      ensures completed == if outcome.Handled? && outcome.complete
                           then old(completed) + {outcome.handler}
                           else old(completed)
    {
      match message.correlation
      case NoCorrelationId =>
        outcome := IgnoredNoCorrelationId;
      case Unreadable(cause) =>
        outcome := ReadFailed(FailedToProcessResponse(message, cause));
      case CorrelationId(correlationId) =>
        if correlationId !in requestMap {
          outcome := IgnoredUnknownCorrelationId(correlationId);
        } else {
          var handler := requestMap[correlationId].handler;
          match handled
          case Threw(cause) =>
            outcome := HandlerFailed(correlationId, handler, FailedToProcessResponse(message, cause));
          case Incomplete =>
            outcome := Handled(correlationId, handler, false);
          case Complete =>
            requestMap := requestMap - {correlationId};
            completed := completed + {handler};
            outcome := Handled(correlationId, handler, true);
        }
    }

    /** The listener container, created on the first call and the same one afterwards. */
    method GetListenerContainer() returns (container: ListenerContainer)
      modifies this`listenerContainer
      ensures listenerContainer == container
      ensures old(listenerContainer) != null ==> container == old(listenerContainer)
      ensures old(listenerContainer) == null ==>
                && fresh(container)
                && container.destinationName == "temporary" && container.messageListener == this
                && container.autoStartup && !container.pubSubDomain && !container.subscriptionDurable
                && container.concurrentConsumers == 1
                && container.clientId == RequestorClientId(configuration.clientId)
    {
      if listenerContainer == null {
        listenerContainer := CreateListenerContainer();
      }
      container := listenerContainer;
    }

    method SetListenerContainer(container: ListenerContainer?)
      modifies this`listenerContainer
      ensures listenerContainer == container
    {
      listenerContainer := container;
    }

    /**
     * A new container that listens, on one consumer, to a temporary queue on
     * behalf of this requestor, under the requestor's client ID.
     */
    method CreateListenerContainer() returns (answer: ListenerContainer)
      ensures fresh(answer)
      ensures answer.destinationName == "temporary" && answer.messageListener == this
      ensures answer.autoStartup && !answer.pubSubDomain && !answer.subscriptionDurable
      ensures answer.concurrentConsumers == 1
      ensures answer.clientId == RequestorClientId(configuration.clientId)
    {
      answer := new ListenerContainer();
      answer.destinationName := "temporary";
      answer.autoStartup := true;
      answer.messageListener := this;
      answer.pubSubDomain := false;
      answer.subscriptionDurable := false;
      answer.concurrentConsumers := 1;
      if configuration.clientId.Some? {
        var clientId := configuration.clientId.value;
        clientId := clientId + RequestorSuffix;
        answer.clientId := Some(clientId);
      }
    }

    /**
     * The container's destination resolver: remembers the temporary queue the
     * session created as the reply destination and returns it.
     */
    method ResolveDestinationName(queue: TemporaryQueue) returns (destination: TemporaryQueue)
      modifies this`replyTo
      ensures replyTo == queue && destination == queue
    {
      replyTo := queue;
      destination := queue;
    }
  }

  /**
   * Two requests are pending; a reply for the second reaches its handler, which
   * completes, and an identical second reply is then one for an unknown ID
   * while the first request is still pending.
   */
  method DuplicateReplyScenario() returns (first: FutureHandler, second: FutureHandler, replies: seq<Outcome>, pending: RequestTable)
    ensures replies == [Handled("R2", second, true), IgnoredUnknownCorrelationId("R2")]
    ensures pending == map["R1" := Entry(first, 500)]
  {
    var requestor := new Requestor(JmsConfiguration(None, 1000));
    first := requestor.GetReceiveFuture("R1", 500);
    second := requestor.GetReceiveFuture("R2", 5000);
    var reply := Message(CorrelationId("R2"), "answer");
    var o1 := requestor.OnMessage(reply, Complete);
    var o2 := requestor.OnMessage(reply, Complete);
    replies := [o1, o2];
    pending := requestor.requestMap;
  }
}
