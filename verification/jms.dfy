/**
 * The parts of the JMS API and of the component configuration that the
 * requestor touches, reduced to the values it reads.
 */
module Jms {
  import opened Wrappers

  /** Java's 64-bit `long`. */
  newtype Long = x: int | -0x8000_0000_0000_0000 <= x < 0x8000_0000_0000_0000

  /** A `javax.jms.JMSException`, kept only for the reason it carries. */
  datatype JmsException = JmsException(reason: string)

  /**
   * What `Message.getJMSCorrelationID()` gives: the header's value,
   * `null` when the header is absent, or a thrown `JMSException`.
   */
  datatype CorrelationHeader =
    | CorrelationId(id: string)
    | NoCorrelationId
    | Unreadable(cause: JmsException)

  /** An inbound reply: its correlation header and an opaque body. */
  datatype Message = Message(correlation: CorrelationHeader, body: string)

  /** The temporary queue a session creates for replies. */
  class TemporaryQueue {
    constructor () {}
  }

  /**
   * The settings of the endpoint's `JmsConfiguration` that the requestor
   * reads; `clientId` is `null` when none is configured.
   */
  datatype JmsConfiguration = JmsConfiguration(
    clientId: Option<string>,
    requestMapPurgePollTimeMillis: Long)
}
