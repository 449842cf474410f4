# Requestor correlation dispatch (camel-jms)

A model of the request/reply correlation done by Camel's JMS `Requestor`. A
caller registers a reply handler under a correlation ID with
`getReceiveFuture`. The requestor keeps the handler in its `requestMap` table
together with the request's timeout. Each inbound JMS reply arrives at
`onMessage`, which looks up the handler by the reply's `JMSCorrelationID` and
hands the reply to it. The entry is removed once the handler reports that it
is done. Beside the table, the requestor creates its Spring listener container
lazily and gives it a client ID derived from the configured one.

Layout:

- `wrappers.dfy`: `Option`, standing for Java references that may be `null`.
- `jms.dfy`: the JMS values the requestor reads. These are Java's `long`, an
  inbound message with its correlation header (present, absent, or unreadable
  because of a `JMSException`), a temporary queue, and the endpoint
  configuration.
- `correlation.dfy`: the request table and the specification of one call.
  `Register` is what `getReceiveFuture` does to the table. `Dispatch` is what
  `onMessage` does with one reply. `Run` is a sequence of such calls. The
  lemmas about sequences of calls are here too.
- `requestor.dfy`: the `Requestor` class with `requestMap` as a mutable field.
  Its methods are proved against `Register` and `Dispatch`. The file also holds
  the listener container, the client-ID rule and a worked scenario.

A reply handler is an object (`FutureHandler`), and only its identity matters.
Whatever `ReplyHandler.handle` reports when it is invoked is an input: complete,
not complete, or a thrown `JMSException`. A ghost field `completed` of the
class records the handlers that have reported completion. The class invariant
says that every handler sits under at most one correlation ID and that no
completed handler is still in the table. `OnMessage` promises that the handler
it invokes has never completed before.

Three facts about the requestor shape the model:

- The caller of `getReceiveFuture` supplies the correlation ID. The requestor
  never generates one.
- A reply without a correlation ID is only logged and dropped. Only a
  `JMSException` raised inside `onMessage` becomes `FailedToProcessResponse`.
  That covers reading the ID and the handler's own `handle`.
- An entry is removed only when the handler returns `true` from `handle`. A
  delivery whose handler returns `false` leaves the entry in place.

## Model

| member | source | states |
|---|---|---|
| `Correlation.Register` | components/camel-jms/src/main/java/org/apache/camel/component/jms/requestor/Requestor.java:72 | After the put, the ID maps to the new handler and its timeout. The key set gains only that ID, and every other entry keeps its value. |
| `Correlation.Dispatch` | components/camel-jms/src/main/java/org/apache/camel/component/jms/requestor/Requestor.java:77-101 | A reply never adds or edits an entry. The table changes exactly when the handler reports completion, and then only that ID's entry is removed. A missing ID is ignored. An ID not in the table is reported as unknown. Otherwise the handler registered under the reply's own ID is invoked. A read failure or a failure inside `handle` becomes `FailedToProcessResponse`, carrying the original message and the `JMSException`. |
| `Correlation.DuplicateReplyIsUnknown` | components/camel-jms/src/main/java/org/apache/camel/component/jms/requestor/Requestor.java:86-94 | Once a reply has completed its handler, an identical second reply takes the unknown-ID branch and leaves the table as it is. |
| `Correlation.PendingHandlerStillReachable` | components/camel-jms/src/main/java/org/apache/camel/component/jms/requestor/Requestor.java:90-95 | When the handler does not report completion, the table is unchanged, and the next reply with that ID reaches the same handler. |
| `Correlation.Run` | components/camel-jms/src/main/java/org/apache/camel/component/jms/requestor/Requestor.java:57-101 | The meaning of a sequence of `getReceiveFuture` and `onMessage` calls: `Register` and `Dispatch` applied in order. Its only contract is the helper fact that every call gives one result. The properties of sequences are the lemmas in the next four rows. |
| `Correlation.OtherEntriesUntouched` | components/camel-jms/src/main/java/org/apache/camel/component/jms/requestor/Requestor.java:69-95 | Any sequence of calls that never names ID `id` leaves `id`'s entry as it was (present with the same handler and timeout, or absent). That includes replies without an ID and replies that cannot be read. |
| `Correlation.LateRepliesAreUnknown` | components/camel-jms/src/main/java/org/apache/camel/component/jms/requestor/Requestor.java:86-94 | Once ID `id` has no entry, every reply for `id` is dropped as unknown until `id` is registered again, and `id` stays absent. |
| `Correlation.ReleasedHandlerNeverInvoked` | components/camel-jms/src/main/java/org/apache/camel/component/jms/requestor/Requestor.java:86-95 | A handler that no entry holds, and that no later `getReceiveFuture` creates, is never handed a reply. |
| `Correlation.NoReplyAfterCompletion` | components/camel-jms/src/main/java/org/apache/camel/component/jms/requestor/Requestor.java:90-95 | A handler stored under at most one ID receives no reply after the one it reported complete. So it completes at most once. |
| `Requestor.RequestorClientId` | components/camel-jms/src/main/java/org/apache/camel/component/jms/requestor/Requestor.java:154-158 | The requestor has a client ID exactly when one is configured. That ID is the configured one plus `.Requestor`, so it is ten characters longer and never equal to the configured ID. |
| `Requestor.RequestorClientIdRoundTrip` | components/camel-jms/src/main/java/org/apache/camel/component/jms/requestor/Requestor.java:154-158 | Removing the `.Requestor` suffix gives back the configured client ID. |
| `Requestor.RequestorClientIdInjective` | components/camel-jms/src/main/java/org/apache/camel/component/jms/requestor/Requestor.java:154-158 | Different configured client IDs give different requestor client IDs. |
| `Requestor.Requestor.constructor` | components/camel-jms/src/main/java/org/apache/camel/component/jms/requestor/Requestor.java:52-55 | A new requestor has an empty request table, no listener container and no reply destination. |
| `Requestor.Requestor.GetReceiveFuture` | components/camel-jms/src/main/java/org/apache/camel/component/jms/requestor/Requestor.java:57-75 | Returns a freshly created handler. The table afterwards is the old table with `Register` applied for that handler and the timeout. The class invariant is kept. |
| `Requestor.Requestor.OnMessage` | components/camel-jms/src/main/java/org/apache/camel/component/jms/requestor/Requestor.java:77-101 | The new table and the outcome are exactly what `Dispatch` gives. The invoked handler has never completed before. A completing handler is recorded as completed, and the class invariant is kept. |
| `Requestor.Requestor.GetListenerContainer` | components/camel-jms/src/main/java/org/apache/camel/component/jms/requestor/Requestor.java:103-108 | With no container yet, creates one and caches it. The new container has all the settings `CreateListenerContainer` gives: destination `temporary`, this requestor as listener, auto-startup, point-to-point, non-durable, one consumer, and the requestor client ID. Otherwise returns the cached container. |
| `Requestor.Requestor.SetListenerContainer` | components/camel-jms/src/main/java/org/apache/camel/component/jms/requestor/Requestor.java:110-112 | Replaces the cached container, which may be `null`. |
| `Requestor.Requestor.CreateListenerContainer` | components/camel-jms/src/main/java/org/apache/camel/component/jms/requestor/Requestor.java:137-158 | Returns a new container with destination name `temporary`, this requestor as listener, auto-startup on, point-to-point, non-durable and one consumer. Its client ID is `RequestorClientId` of the configured one. |
| `Requestor.Requestor.ResolveDestinationName` | components/camel-jms/src/main/java/org/apache/camel/component/jms/requestor/Requestor.java:142-146 | Records the temporary queue created for replies as `replyTo` and returns it. |
| `Requestor.DuplicateReplyScenario` | components/camel-jms/src/main/java/org/apache/camel/component/jms/requestor/Requestor.java:57-101 | Register `R1` and `R2`, then deliver a reply for `R2` twice. The first reply completes `R2`'s own handler. The second is unknown. `R1` is still pending with its timeout. |

## Left out

- Expiry of entries. `DefaultTimeoutMap` and its background purge on a
  `ScheduledExecutorService` are not part of this model. The timeout is only
  stored with the entry, and `requestMapPurgePollTimeMillis` is only carried in
  the configuration. Removal by the purge would be one more way for an entry to
  disappear. The lemmas that start from "this ID has no entry" still apply then.
- The `put` semantics of the timeout map, taken as last-write-wins: a second
  registration under an existing ID replaces the entry.
- Concurrency. Delivery threads, the purge thread and callers may race in the
  real component. The model is sequential: each call runs to completion.
- `FutureHandler` and `ReplyHandler` are not part of this model. That includes
  how the future blocks, holds its result and times out. What `handle` does is
  an input to `OnMessage`.
- The `instanceof ReplyHandler` test in `onMessage`. Only `getReceiveFuture`
  writes the table, and it stores only `FutureHandler`s, so the test always
  passes. The model's table holds only handlers.
- The commented-out async-handler lookup in `getReceiveFuture`. It is dead
  code, so `future` is always `null` at the test that follows, and the model
  always creates a new handler.
- Logging of ignored replies (`LOG.warn`).
- Starting and stopping the container (`doStart`, `doStop`), Spring's
  `afterPropertiesSet`, `stop` and `destroy`, and the creation of the temporary
  queue by the JMS session. The session's queue is an input to
  `ResolveDestinationName`.
- The connection factory, task executor and exception listener passed to the
  container. They are opaque Spring and JMS objects. The connection factory is
  always set, even when it is `null`. The task executor and the exception
  listener are set only when they are not `null`.
- `getReceiveFuture` with a `null` correlation ID. Correlation IDs are `string`
  here, so the model cannot make that call. Java accepts it and stores an entry
  under `null`. No reply can ever reach that entry, because a reply without a
  correlation ID is dropped before the lookup.
- Unchecked exceptions thrown by `ReplyHandler.handle`. `HandleResult` models
  only a `JMSException`. Any other exception leaves `onMessage` without being
  wrapped in `FailedToProcessResponse`, and the entry stays in the table, as it
  does for a `JMSException`.
- The plain accessors `getReplyTo` and `setReplyTo`, which read and write the
  `replyTo` field.
