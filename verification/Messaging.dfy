/** What a handler tells the consumer, and what the consumer tells a handler. */
module Messaging {
  import opened Domain

  /** How a handler returns: its error class decides redelivery. */
  datatype Outcome = Ok | Retryable | NonRetryable | Unclassified

  datatype Attempt = Attempt(count: int, max: int)

  /** Without attempt information no attempt is the last. */
  function LastAttempt(a: Option<Attempt>): bool {
    a.Some? && a.value.count >= a.value.max
  }

  /** A failure that is given up only on the last attempt. */
  function Failure(lastAttempt: bool): Outcome {
    if lastAttempt then NonRetryable else Retryable
  }
}
