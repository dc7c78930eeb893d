/** What a broker delivers, and how it leaves the consumer: acknowledged, delivered again later, or
    dead-lettered. */
module Deliveries {
  import opened InboxTables
  import opened BatchRuntime
  import opened InboxAttempt
  import opened InboxBatch

  /** A decoded envelope: its logical key, canonical digest and size, and its two optional time bounds.
      typed is whether the application codec accepts the payload. */
  datatype Envelope = Envelope(item: ItemKey, fp: Digest, size: nat, expiresAt: Option<Time>, notBefore: Option<Time>,
                               typed: bool)

  /** The instants at which a message may be handled: not before one bound, and before the other. */
  predicate InWindow(notBefore: Option<Time>, expiresAt: Option<Time>, t: Time) {
    (notBefore.Some? ==> notBefore.value <= t) && (expiresAt.Some? ==> t < expiresAt.value)
  }

  /** A delay of zero asks for the computed backoff. */
  datatype Fate =
    | Ack
    | Retry(attempt: nat, delay: nat)
    | Dead(attempt: nat, confirm: bool)

  function AtLeastOne(n: nat): nat {
    if n == 0 then 1 else n
  }

  function FateOf(o: ItemOutcome): Fate {
    match o.action
    case ACK => Ack
    case RETRY => Retry(o.attempt, o.delay)
    case DEFER => Retry(o.attempt, o.delay)
    case DLQ => Dead(AtLeastOne(o.attempt), o.failure.ClosedAs?)
  }

  /** The reply of one attempt, as the single-message consumers turn it into a fate. */
  function FateOfReply(reply: Reply, limit: nat): Fate {
    if reply.err.None? then Ack
    else
      var err := reply.err.value;
      var permanent := err.AttemptTerminal? || (err.HandlerError? && err.failure.permanent);
      if err.FingerprintConflict? || permanent || reply.attempt >= limit || err.AttemptsSpent?
      then Dead(AtLeastOne(reply.attempt), !err.FingerprintConflict?)
      else
        Retry(reply.attempt,
              if err.HandlerError? && err.failure.deferDelay.Some? then err.failure.deferDelay.value
              else if err.HandlerError? && err.failure.retryDelay.Some? then err.failure.retryDelay.value
              else 0)
  }

  /** Batch and single-message consumers agree on what a lead's reply calls for. */
  lemma BatchAgreesWithSingle(db: Tables, item: BatchItem, limit: nat, outcome: Outcome)
    requires limit > 0
    ensures var reply := ReplyTo(db, item.key, item.fp, limit, outcome);
            FateOf(FromReply(item, reply, limit, false)) == FateOfReply(reply, limit)
  {
  }
}
