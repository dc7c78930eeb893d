/** Polled Kafka records and what the consumer makes of one before any handler runs. */
module KafkaRecords {
  import opened InboxTables
  import opened Deliveries
  import opened KafkaControl

  /** body is None when the value is no envelope of the consumer's descriptor under its own key. */
  datatype LogRecord = LogRecord(topic: string, partition: nat, offset: nat, epoch: nat, headers: seq<Header>, size: nat,
                           body: Option<Envelope>)

  datatype TopicPartition = TopicPartition(topic: string, partition: nat)

  function Place(r: LogRecord): TopicPartition {
    TopicPartition(r.topic, r.partition)
  }

  /** The topics one consumer subscribes to. */
  datatype Subscription = Subscription(source: string, replay: string, retries: set<string>)

  function OwnPosition(r: LogRecord): Control {
    Control(Position(r.topic, r.partition, r.offset), 0, None, "")
  }

  function ParseControl(s: Subscription, r: LogRecord): Option<Control> {
    if r.topic == s.source then
      if exists i | 0 <= i < |r.headers| :: Lower(r.headers[i].key) in RESERVED then None else Some(OwnPosition(r))
    else if r.topic == s.replay then
      var m := Decode(r.headers);
      if m.Some? && REPLAY_PREFIX <= m.value.generation then m else None
    else if r.topic in s.retries then Decode(r.headers)
    else None
  }

  datatype Due = Expired | DueNow | DueAt(at: Time)

  function RetryDue(notBefore: Option<Time>, expiresAt: Option<Time>, now: Time): Due {
    if expiresAt.Some? && expiresAt.value <= now then Expired
    else if notBefore.None? || notBefore.value <= now then DueNow
    else if expiresAt.Some? && expiresAt.value <= notBefore.value then Expired
    else DueAt(notBefore.value)
  }

  /** A record is due at the first instant from now on at which it may be handled, and expired if there
      is no such instant. */
  lemma DueIsEarliest(notBefore: Option<Time>, expiresAt: Option<Time>, now: Time)
    ensures match RetryDue(notBefore, expiresAt, now)
            case Expired => forall t: Time | now <= t :: !InWindow(notBefore, expiresAt, t)
            case DueNow => InWindow(notBefore, expiresAt, now)
            case DueAt(at) => now < at && InWindow(notBefore, expiresAt, at)
                              && forall t: Time | now <= t < at :: !InWindow(notBefore, expiresAt, t)
  {
  }

  /** A record either cannot be handled at all, is not due yet, or carries a typed message. */
  datatype Prepared =
    | Broken(control: Control, attempt: nat)
    | Waiting(control: Control, at: Time)
    | Ready(control: Control, message: Envelope)

  function Prepare(s: Subscription, r: LogRecord, now: Time): Prepared {
    var parsed := ParseControl(s, r);
    if parsed.None? then Broken(OwnPosition(r), 1)
    else
      var control := parsed.value;
      if control.source.topic != s.source || r.body.None? then Broken(control, AtLeastOne(control.attempt))
      else
        match RetryDue(control.notBefore, r.body.value.expiresAt, now)
        case Expired => Broken(control, AtLeastOne(control.attempt))
        case DueAt(at) => Waiting(control, at)
        case DueNow => if r.body.value.typed then Ready(control, r.body.value)
                       else Broken(control, AtLeastOne(control.attempt))
  }

  /** The origin that every copy of a record inherits, however late it is looked at. */
  function ControlOf(s: Subscription, r: LogRecord): Control {
    var parsed := ParseControl(s, r);
    if parsed.None? then OwnPosition(r) else parsed.value
  }

  lemma PreparedControl(s: Subscription, r: LogRecord, now: Time)
    ensures Prepare(s, r, now).control == ControlOf(s, r)
    ensures Prepare(s, r, now).Ready? ==>
              r.body == Some(Prepare(s, r, now).message) && ControlOf(s, r).source.topic == s.source
              && ParseControl(s, r) == Some(ControlOf(s, r))
  {
    hide ParseControl;
  }
}
