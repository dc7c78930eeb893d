/** Hand-off safety over whole runs: a Kafka log, its committed offsets, the dead-letter topic and the
    Inbox, changed by producers, consumer transactions and Inbox calls in any order. A consumer
    transaction is atomic; one that crashes or aborts leaves no step behind, while the Inbox calls it
    made before stay. */
module KafkaHandoff {
  import opened InboxTables
  import opened Decimal
  import opened InboxRuns
  import opened InboxGuarantees
  import opened Deliveries
  import opened KafkaControl
  import opened KafkaRecords
  import opened KafkaBatch
  import opened KafkaProcess
  import KafkaTopics

  /** One record of a partition's log; its offset is its index. */
  datatype Stored = Stored(headers: seq<Header>, size: nat, body: Option<Envelope>)

  /** handoffs are the closed cycles whose records a committed transaction dead-lettered: what consumers may
      go on to confirm. */
  datatype World = World(calls: seq<Call>, log: map<TopicPartition, seq<Stored>>, done: map<TopicPartition, nat>,
                         dlq: seq<Produced>, handoffs: set<Cycle>, consumed: nat, acked: nat, copied: nat)

  function LogAt(w: World, at: TopicPartition): seq<Stored> {
    if at in w.log then w.log[at] else []
  }

  /** The committed offset: records below it are never delivered to this consumer again. */
  function DoneAt(w: World, at: TopicPartition): nat {
    if at in w.done then w.done[at] else 0
  }

  function RecordAt(w: World, at: TopicPartition, i: nat): LogRecord
    requires i < |LogAt(w, at)|
  {
    var r := LogAt(w, at)[i];
    LogRecord(at.topic, at.partition, i, 0, r.headers, r.size, r.body)
  }

  ghost function Inbox(w: World): Tables {
    Run(EMPTY, w.calls).0
  }

  ghost function InboxLog(w: World): seq<Event> {
    Run(EMPTY, w.calls).1
  }

  /** Where a message came from, under which generation, and what it says. */
  datatype Lineage = Lineage(source: Position, generation: string, body: Option<Envelope>)

  function LineageOf(s: Settings, r: LogRecord): Lineage {
    var c := ControlOf(s.subscription, r);
    Lineage(c.source, c.generation, r.body)
  }

  // ---------------------------------------------------------------- where a message may be

  ghost predicate Effected(s: Settings, w: World, x: Lineage) {
    x.body.Some? && exists e | e in InboxLog(w) :: EffectOf(e, IdentityOf(s, x.body.value), x.body.value.fp)
  }

  ghost predicate DeadLettered(w: World, x: Lineage) {
    exists attempt :: DeadLetter(x.source, x.generation, attempt, x.body) in w.dlq
  }

  ghost predicate PendingAt(s: Settings, w: World, x: Lineage, at: TopicPartition, i: nat) {
    DoneAt(w, at) <= i < |LogAt(w, at)| && LineageOf(s, RecordAt(w, at, i)) == x
  }

  ghost predicate Pending(s: Settings, w: World, x: Lineage) {
    exists at, i :: PendingAt(s, w, x, at, i)
  }

  /** Somebody still answers for the message. */
  ghost predicate Accounted(s: Settings, w: World, x: Lineage) {
    Effected(s, w, x) || DeadLettered(w, x) || Pending(s, w, x)
  }

  /** No message that was ever in the log is lost, offsets stay inside the log, and consumption balances. */
  ghost predicate Safe(s: Settings, w: World) {
    && (forall at, i: nat | i < |LogAt(w, at)| :: Accounted(s, w, LineageOf(s, RecordAt(w, at, i))))
    && (forall at :: DoneAt(w, at) <= |LogAt(w, at)|)
    && w.consumed == w.acked + w.copied + |w.dlq|
  }

  // ---------------------------------------------------------------- steps

  function Append(log: map<TopicPartition, seq<Stored>>, at: TopicPartition, r: Stored): map<TopicPartition, seq<Stored>> {
    log[at := (if at in log then log[at] else []) + [r]]
  }

  /** Puts a transaction's products where they belong; targets picks a partition of each retry topic. */
  function Publish(w: World, produced: seq<Produced>, targets: seq<nat>): World
    requires |targets| == |produced|
  {
    if produced == [] then w
    else
      var n := |produced| - 1;
      var before := Publish(w, produced[..n], targets[..n]);
      match produced[n]
      case RetryCopy(topic, control, message) =>
        before.(log := Append(before.log, TopicPartition(topic, targets[n]),
                              Stored(Headers(control), message.size, Some(message))),
                copied := before.copied + 1)
      case DeadLetter(_, _, _, _) => before.(dlq := before.dlq + [produced[n]])
  }

  /** The Inbox as some earlier part of the history left it. */
  ghost function InboxAt(w: World, n: nat): Tables
    requires n <= |w.calls|
  {
    Run(EMPTY, w.calls[..n]).0
  }

  /** The fate was decided by an Inbox call at some time before; any other calls may have followed since. */
  ghost predicate DecidedBefore(s: Settings, w: World, p: Prepared, f: Fate) {
    exists n: nat | n <= |w.calls| :: FateOk(s, InboxAt(w, n), p, f)
  }

  ghost predicate AllDecided(s: Settings, w: World, records: seq<Selected>, fates: seq<Fate>) {
    |fates| == |records| && forall k | 0 <= k < |records| :: DecidedBefore(s, w, records[k].prepared, fates[k])
  }

  /** The record was looked at under some clock reading. */
  ghost predicate LookedAt(s: Settings, r: Selected) {
    exists now :: r.prepared == Prepare(s.subscription, r.record, now)
  }

  /** The records are the next ones of the partition. */
  ghost predicate NextRecords(s: Settings, w: World, at: TopicPartition, records: seq<Selected>) {
    && DoneAt(w, at) + |records| <= |LogAt(w, at)|
    && forall k | 0 <= k < |records| :: records[k].record == RecordAt(w, at, DoneAt(w, at) + k) && LookedAt(s, records[k])
  }

  /** The world once a transaction has committed. */
  function AfterCommit(s: Settings, w: World, at: TopicPartition, records: seq<Selected>, fates: seq<Fate>,
                       produced: seq<Produced>, targets: seq<nat>): World
    requires |targets| == |produced|
  {
    var p := Publish(w, produced, targets);
    p.(done := p.done[at := DoneAt(w, at) + |records|], handoffs := p.handoffs + DeadCycles(s, records, fates),
       consumed := p.consumed + |records|, acked := p.acked + Acks(fates))
  }

  /** One committed consumer transaction: consecutive records from the committed offset on, one fate
      each, everything produced and the offset moved together. */
  ghost predicate Transacts(s: Settings, w: World, at: TopicPartition, records: seq<Selected>, fates: seq<Fate>,
                            produced: seq<Produced>, targets: seq<nat>, from: seq<nat>, w': World) {
    && NextRecords(s, w, at, records)
    && AllDecided(s, w, records, fates)
    && Conserves(s, records, fates, produced, from) && |targets| == |produced|
    && (forall k | 0 <= k < |produced| && produced[k].RetryCopy? :: InRange(produced[k].control))
    && w' == AfterCommit(s, w, at, records, fates, produced, targets)
  }

  /** Partition, offset, attempt and due time fit their Go types. */
  predicate InRange(m: Control) {
    && m.source.partition <= MAX_INT32 && m.source.offset <= MAX_INT64 && m.attempt <= MAX_UINT64
    && (m.notBefore.Some? ==> |FormatTime(m.notBefore.value)| <= MAX_VALUE)
  }

  /** The cycle that a dead letter closes for good. */
  predicate Closes(s: Settings, d: Produced, c: Cycle) {
    d.DeadLetter? && d.original.Some?
    && c == CycleOf(Key(IdentityOf(s, d.original.value), d.generation), d.original.value.fp)
  }

  datatype Action =
    | Produces(at: TopicPartition, r: Stored)
    | Calls(call: Call)
    | Confirms(key: Key, fp: Digest, now: Time)
    | Consumes(at: TopicPartition, records: seq<Selected>, fates: seq<Fate>, produced: seq<Produced>,
               targets: seq<nat>, from: seq<nat>)

  ghost predicate Next(s: Settings, w: World, a: Action, w': World) {
    match a
    case Produces(at, r) => w' == w.(log := Append(w.log, at, r))
    case Calls(call) => !call.DoConfirm? && w' == w.(calls := w.calls + [call])
    case Confirms(key, fp, now) => CycleOf(key, fp) in w.handoffs && w' == w.(calls := w.calls + [DoConfirm(key, fp, now)])
    case Consumes(at, records, fates, produced, targets, from) =>
      Transacts(s, w, at, records, fates, produced, targets, from, w')
  }

  const START := World([], map[], map[], [], {}, 0, 0, 0)

  /** Worlds that follow each other by the given actions. */
  ghost predicate Path(s: Settings, ws: seq<World>, actions: seq<Action>) {
    |ws| == |actions| + 1 && forall k | 0 <= k < |actions| :: Next(s, ws[k], actions[k], ws[k + 1])
  }

  ghost predicate Reachable(s: Settings, ws: seq<World>, actions: seq<Action>) {
    Path(s, ws, actions) && ws[0] == START
  }

  lemma StartsThere(s: Settings, ws: seq<World>, actions: seq<Action>)
    requires Reachable(s, ws, actions)
    ensures |ws| > 0 && ws[0] == START
  {
    hide Next;
  }

  lemma NextOnPath(s: Settings, ws: seq<World>, actions: seq<Action>, k: nat)
    requires Reachable(s, ws, actions) && k + 1 < |ws|
    ensures k < |actions| && Next(s, ws[k], actions[k], ws[k + 1])
  {
    hide Next;
  }

  // ---------------------------------------------------------------- growth

  /** Logs, dead letters and Inbox events are only ever added. */
  ghost predicate Grows(w: World, w': World) {
    && (forall at :: LogAt(w, at) <= LogAt(w', at))
    && w.dlq <= w'.dlq && (forall e | e in InboxLog(w) :: e in InboxLog(w'))
  }

  lemma StaysEffected(s: Settings, w: World, w': World, x: Lineage)
    requires Grows(w, w')
    ensures Effected(s, w, x) ==> Effected(s, w', x)
    ensures DeadLettered(w, x) ==> DeadLettered(w', x)
  {
    hide Run, LogAt;
    if DeadLettered(w, x) {
      var attempt :| DeadLetter(x.source, x.generation, attempt, x.body) in w.dlq;
      assert DeadLetter(x.source, x.generation, attempt, x.body) in w'.dlq;
    }
  }

  lemma SameRecord(s: Settings, w: World, w': World, at: TopicPartition, i: nat)
    requires Grows(w, w') && i < |LogAt(w, at)|
    ensures i < |LogAt(w', at)| && RecordAt(w', at, i) == RecordAt(w, at, i)
  {
    hide Run;
    assert LogAt(w, at) <= LogAt(w', at);
  }

  /** A record that is still to be delivered answers for itself. */
  lemma PendingItself(s: Settings, w: World, at: TopicPartition, i: nat)
    requires DoneAt(w, at) <= i < |LogAt(w, at)|
    ensures Accounted(s, w, LineageOf(s, RecordAt(w, at, i)))
  {
    hide Run, ControlOf;
    assert PendingAt(s, w, LineageOf(s, RecordAt(w, at, i)), at, i);
  }

  /** Accounts survive growth while nothing is consumed. */
  lemma KeepsAccount(s: Settings, w: World, w': World, x: Lineage)
    requires Grows(w, w') && w'.done == w.done && Accounted(s, w, x)
    ensures Accounted(s, w', x)
  {
    hide Run, ControlOf, Effected, DeadLettered, Grows;
    StaysEffected(s, w, w', x);
    if Pending(s, w, x) {
      var at, i :| PendingAt(s, w, x, at, i);
      SameRecord(s, w, w', at, i);
      assert PendingAt(s, w', x, at, i);
    }
  }

  /** A step that only adds keeps everything accounted for. */
  lemma GrowthIsSafe(s: Settings, w: World, w': World)
    requires Safe(s, w) && Grows(w, w') && w'.done == w.done
    requires w'.consumed == w'.acked + w'.copied + |w'.dlq|
    ensures Safe(s, w')
  {
    hide Run, ControlOf, LineageOf, RecordAt, Accounted, Grows;
    forall at, i: nat | i < |LogAt(w', at)| ensures Accounted(s, w', LineageOf(s, RecordAt(w', at, i))) {
      if i < DoneAt(w', at) {
        assert DoneAt(w, at) <= |LogAt(w, at)|;
        SameRecord(s, w, w', at, i);
        KeepsAccount(s, w, w', LineageOf(s, RecordAt(w, at, i)));
      } else {
        PendingItself(s, w', at, i);
      }
    }
    forall at ensures DoneAt(w', at) <= |LogAt(w', at)| {
      assert DoneAt(w, at) <= |LogAt(w, at)|;
      GrownLog(w, w', at);
    }
  }

  lemma GrownLog(w: World, w': World, at: TopicPartition)
    requires Grows(w, w')
    ensures |LogAt(w, at)| <= |LogAt(w', at)|
  {
    hide Run;
    assert LogAt(w, at) <= LogAt(w', at);
  }

  // ---------------------------------------------------------------- publishing

  lemma AppendedLog(w: World, at: TopicPartition, r: Stored, b: TopicPartition)
    ensures var w' := w.(log := Append(w.log, at, r));
            LogAt(w', b) == LogAt(w, b) + (if b == at then [r] else [])
  {
  }

  /** Publishing only adds: one log entry per copy, one dead letter per dead record. */
  lemma {:induction false} PublishGrows(w: World, produced: seq<Produced>, targets: seq<nat>)
    requires |targets| == |produced|
    ensures var p := Publish(w, produced, targets);
            && p.calls == w.calls && p.done == w.done && p.handoffs == w.handoffs
            && p.consumed == w.consumed && p.acked == w.acked
            && (forall at :: LogAt(w, at) <= LogAt(p, at)) && w.dlq <= p.dlq
            && p.copied + |p.dlq| == w.copied + |w.dlq| + |produced|
    decreases |produced|
  {
    if produced != [] {
      var n := |produced| - 1;
      PublishGrows(w, produced[..n], targets[..n]);
      var before, p := Publish(w, produced[..n], targets[..n]), Publish(w, produced, targets);
      hide Publish, LogAt, Append;
      PublishStep(w, produced, targets);
      forall at ensures LogAt(w, at) <= LogAt(p, at) {
        assert LogAt(w, at) <= LogAt(before, at) <= LogAt(p, at);
      }
    }
  }

  lemma PublishStep(w: World, produced: seq<Produced>, targets: seq<nat>)
    requires |targets| == |produced| > 0
    ensures var n := |produced| - 1;
            var before, p := Publish(w, produced[..n], targets[..n]), Publish(w, produced, targets);
            && p.calls == before.calls && p.done == before.done && p.handoffs == before.handoffs
            && p.consumed == before.consumed && p.acked == before.acked
            && (forall at :: LogAt(before, at) <= LogAt(p, at)) && before.dlq <= p.dlq
            && p.copied + |p.dlq| == before.copied + |before.dlq| + 1
            && (match produced[n]
                case DeadLetter(_, _, _, _) => produced[n] in p.dlq
                case RetryCopy(topic, control, message) =>
                  var at := TopicPartition(topic, targets[n]);
                  LogAt(p, at) == LogAt(before, at) + [Stored(Headers(control), message.size, Some(message))])
  {
    hide Headers;
  }

  /** A dead record reaches the dead-letter topic. */
  lemma {:induction false} DeadIsPublished(w: World, produced: seq<Produced>, targets: seq<nat>, k: nat)
    requires |targets| == |produced| && k < |produced| && produced[k].DeadLetter?
    ensures produced[k] in Publish(w, produced, targets).dlq
    decreases |produced|
  {
    hide Publish, LogAt;
    PublishStep(w, produced, targets);
    var n := |produced| - 1;
    if k < n {
      DeadIsPublished(w, produced[..n], targets[..n], k);
    }
  }

  /** A copy reaches its retry topic, behind everything that was there. */
  lemma {:induction false} CopyIsPublished(w: World, produced: seq<Produced>, targets: seq<nat>, k: nat) returns (i: nat)
    requires |targets| == |produced| && k < |produced| && produced[k].RetryCopy?
    ensures var p := Publish(w, produced, targets); var at := TopicPartition(produced[k].topic, targets[k]);
            && |LogAt(w, at)| <= i < |LogAt(p, at)|
            && LogAt(p, at)[i] == Stored(Headers(produced[k].control), produced[k].message.size, Some(produced[k].message))
    decreases |produced|
  {
    hide Publish, LogAt, Headers;
    PublishStep(w, produced, targets);
    var n := |produced| - 1;
    var at := TopicPartition(produced[k].topic, targets[k]);
    if k < n {
      i := CopyIsPublished(w, produced[..n], targets[..n], k);
      assert LogAt(Publish(w, produced[..n], targets[..n]), at) <= LogAt(Publish(w, produced, targets), at);
    } else {
      PublishGrows(w, produced[..n], targets[..n]);
      assert LogAt(w, at) <= LogAt(Publish(w, produced[..n], targets[..n]), at);
      i := |LogAt(Publish(w, produced[..n], targets[..n]), at)|;
    }
  }

  // ---------------------------------------------------------------- lineage

  /** The consumer's own topics are told apart by name. */
  predicate Apart(s: Settings) {
    && KafkaTopics.ValidTopicName(s.subscription.source)
    && s.subscription.source !in s.subscription.retries && s.subscription.replay !in s.subscription.retries
  }

  lemma ParsedGeneration(sub: Subscription, r: LogRecord)
    ensures var c := ParseControl(sub, r);
            c.Some? ==> Trimmed(c.value.generation) && |c.value.generation| <= MAX_GENERATION
  {
    DecodeTrims(r.headers);
    hide Decode, Trimmed, Lower;
    assert r.topic == sub.source ==> ParseControl(sub, r) in {None, Some(OwnPosition(r))};
  }

  /** However often a message is copied, its copies name the same origin and generation. */
  lemma CopyLineage(s: Settings, r: LogRecord, now: Time, m: Control, copy: LogRecord)
    requires Apart(s) && Prepare(s.subscription, r, now).Ready?
    requires var c := Prepare(s.subscription, r, now).control;
             m == c.(attempt := m.attempt, notBefore := m.notBefore) && InRange(m)
    requires copy.topic in s.subscription.retries && copy.headers == Headers(m) && copy.body == r.body
    ensures LineageOf(s, copy) == LineageOf(s, r)
  {
    PreparedControl(s.subscription, r, now);
    ParsedGeneration(s.subscription, r);
    RoundTrip(m);
    hide Prepare, Headers, Decode, KafkaTopics.ValidTopicName, FormatTime, Trimmed;
    assert Carriable(m);
    DecodedCopy(s.subscription, copy, m);
  }

  lemma DecodedCopy(sub: Subscription, copy: LogRecord, m: Control)
    requires copy.topic in sub.retries && sub.source !in sub.retries && sub.replay !in sub.retries
    requires Decode(copy.headers) == Some(m)
    ensures ControlOf(sub, copy) == m
  {
    hide Decode;
  }

  // ---------------------------------------------------------------- consuming

  lemma TransactionGrows(s: Settings, w: World, at: TopicPartition, records: seq<Selected>, fates: seq<Fate>,
                         produced: seq<Produced>, targets: seq<nat>, from: seq<nat>, w': World)
    requires Transacts(s, w, at, records, fates, produced, targets, from, w')
    ensures Grows(w, w') && w'.calls == w.calls && w'.handoffs == w.handoffs + DeadCycles(s, records, fates)
    ensures w'.done == w.done[at := DoneAt(w, at) + |records|]
    ensures var p := Publish(w, produced, targets); w'.dlq == p.dlq && forall b :: LogAt(w', b) == LogAt(p, b)
  {
    hide Run, AllDecided, Conserves, Publish, RecordAt, Prepare, InRange, DeadCycles;
    PublishGrows(w, produced, targets);
  }

  /** Every consumed record is accounted for by its own fate. */
  lemma ConsumedIsAccounted(s: Settings, w: World, at: TopicPartition, records: seq<Selected>, fates: seq<Fate>,
                            produced: seq<Produced>, targets: seq<nat>, from: seq<nat>, w': World, k: nat)
    requires Apart(s) && Transacts(s, w, at, records, fates, produced, targets, from, w') && k < |records|
    requires forall b :: DoneAt(w, b) <= |LogAt(w, b)|
    ensures Accounted(s, w', LineageOf(s, records[k].record))
  {
    hide *;
    TransactionGrows(s, w, at, records, fates, produced, targets, from, w');
    var now, n := FateAt(s, w, at, records, fates, produced, targets, from, w', k);
    var r, x := records[k].record, LineageOf(s, records[k].record);
    LineageFields(s, r, now);
    if fates[k].Ack? {
      AckedIsEffected(s, w, n, w', records[k].prepared, x);
    } else {
      var j := ProducedFor(s, records, fates, produced, from, k);
      MadeIs(s, records[k], fates[k], produced[j]);
      if fates[k].Dead? {
        DeadIsPublished(w, produced, targets, j);
        DeadIsAccounted(s, w', x, fates[k].attempt);
      } else {
        var i := CopyIsPublished(w, produced, targets, j);
        CopyRange(s, w, at, records, fates, produced, targets, from, w', j);
        CopyIsAccounted(s, w, at, |records|, w', r, now, produced[j], targets[j], i);
      }
    }
  }

  lemma FateAt(s: Settings, w: World, at: TopicPartition, records: seq<Selected>, fates: seq<Fate>,
               produced: seq<Produced>, targets: seq<nat>, from: seq<nat>, w': World, k: nat) returns (now: Time, n: nat)
    requires Transacts(s, w, at, records, fates, produced, targets, from, w') && k < |records|
    ensures |fates| == |records| && |targets| == |produced| && Conserves(s, records, fates, produced, from)
    ensures records[k].prepared == Prepare(s.subscription, records[k].record, now)
    ensures n <= |w.calls| && FateOk(s, InboxAt(w, n), records[k].prepared, fates[k])
    ensures DoneAt(w, at) + |records| <= |LogAt(w, at)|
  {
    hide Run, Publish, RecordAt, Prepare, InRange, Conserves, FateOk, DeadCycles, InboxAt;
    assert LookedAt(s, records[k]);
    now :| records[k].prepared == Prepare(s.subscription, records[k].record, now);
    assert DecidedBefore(s, w, records[k].prepared, fates[k]);
    n :| n <= |w.calls| && FateOk(s, InboxAt(w, n), records[k].prepared, fates[k]);
  }

  lemma CopyRange(s: Settings, w: World, at: TopicPartition, records: seq<Selected>, fates: seq<Fate>,
                  produced: seq<Produced>, targets: seq<nat>, from: seq<nat>, w': World, j: nat)
    requires Transacts(s, w, at, records, fates, produced, targets, from, w') && j < |produced| && produced[j].RetryCopy?
    ensures InRange(produced[j].control)
  {
    hide Run, Publish, RecordAt, Prepare, InRange, Conserves, AllDecided, DeadCycles;
  }

  lemma LineageFields(s: Settings, r: LogRecord, now: Time)
    ensures var p := Prepare(s.subscription, r, now); var x := LineageOf(s, r);
            && x.source == p.control.source && x.generation == p.control.generation && x.body == r.body
            && (p.Ready? ==> r.body == Some(p.message))
  {
    PreparedControl(s.subscription, r, now);
  }

  lemma ProducedFor(s: Settings, records: seq<Selected>, fates: seq<Fate>, produced: seq<Produced>, from: seq<nat>, k: nat)
    returns (j: nat)
    requires Conserves(s, records, fates, produced, from) && k < |records| == |fates| && !fates[k].Ack?
    ensures j < |produced| && Makes(s, records[k], fates[k], produced[j])
  {
    hide Makes;
    assert k in from;
    j :| 0 <= j < |from| && from[j] == k;
  }

  lemma MadeIs(s: Settings, r: Selected, f: Fate, p: Produced)
    requires Makes(s, r, f, p)
    ensures f.Retry? ==>
              && r.prepared.Ready? && p.RetryCopy? && p.topic in s.subscription.retries && p.message == r.prepared.message
              && p.control == r.prepared.control.(attempt := p.control.attempt, notBefore := p.control.notBefore)
    ensures f.Dead? ==>
              p == DeadLetter(r.prepared.control.source, r.prepared.control.generation, f.attempt, r.record.body)
  {
  }

  /** An identity that was complete when the fate was decided had its effect then, and effects are never
      taken back, not even when the identity has been retired since. */
  lemma AckedIsEffected(s: Settings, w: World, n: nat, w': World, p: Prepared, x: Lineage)
    requires n <= |w.calls| && FateOk(s, InboxAt(w, n), p, Ack) && Grows(w, w') && (p.Ready? ==> x.body == Some(p.message))
    ensures Accounted(s, w', x)
  {
    var id, fp := IdentityOf(s, p.message), p.message.fp;
    CompletedHasEffect(w.calls[..n], id);
    var e :| e in Run(EMPTY, w.calls[..n]).1 && EffectOf(e, id, fp);
    RunPrefix(w.calls[..n], w.calls[n..]);
    assert w.calls[..n] + w.calls[n..] == w.calls;
    hide Run, Grows, LogAt, EffectOf, FateOk;
    assert e in InboxLog(w);
    StaysEffected(s, w, w', x);
  }

  lemma DeadIsAccounted(s: Settings, w: World, x: Lineage, attempt: nat)
    requires DeadLetter(x.source, x.generation, attempt, x.body) in w.dlq
    ensures Accounted(s, w, x)
  {
    hide Run, Effected, Pending;
  }

  lemma CopyIsAccounted(s: Settings, w: World, at: TopicPartition, n: nat, w': World, r: LogRecord, now: Time,
                        p: Produced, target: nat, i: nat)
    requires Apart(s) && Prepare(s.subscription, r, now).Ready? && p.RetryCopy? && p.topic in s.subscription.retries
    requires var c := Prepare(s.subscription, r, now).control;
             p.control == c.(attempt := p.control.attempt, notBefore := p.control.notBefore) && InRange(p.control)
    requires r.body == Some(p.message)
    requires w'.done == w.done[at := DoneAt(w, at) + n] && DoneAt(w, at) + n <= |LogAt(w, at)|
    requires var b := TopicPartition(p.topic, target);
             && DoneAt(w, b) <= |LogAt(w, b)| <= i < |LogAt(w', b)|
             && LogAt(w', b)[i] == Stored(Headers(p.control), p.message.size, Some(p.message))
    ensures Accounted(s, w', LineageOf(s, r))
  {
    hide Run, Prepare, Headers, LineageOf, Accounted, Apart, InRange;
    var b := TopicPartition(p.topic, target);
    CopyLineage(s, r, now, p.control, RecordAt(w', b, i));
    PendingItself(s, w', b, i);
  }

  lemma ConsumedAt(w: World, at: TopicPartition, n: nat, w': World, b: TopicPartition)
    requires w'.done == w.done[at := DoneAt(w, at) + n]
    ensures DoneAt(w', b) == DoneAt(w, b) + (if b == at then n else 0)
  {
  }

  lemma TransactionKeepsAccount(s: Settings, w: World, at: TopicPartition, records: seq<Selected>, fates: seq<Fate>,
                                produced: seq<Produced>, targets: seq<nat>, from: seq<nat>, w': World, x: Lineage)
    requires Apart(s) && Transacts(s, w, at, records, fates, produced, targets, from, w') && Accounted(s, w, x)
    requires forall b :: DoneAt(w, b) <= |LogAt(w, b)|
    ensures Accounted(s, w', x)
  {
    hide *;
    TransactionGrows(s, w, at, records, fates, produced, targets, from, w');
    StaysEffected(s, w, w', x);
    if Effected(s, w, x) || DeadLettered(w, x) {
      AccountedBy(s, w', x);
    } else {
      var b, i := StillPending(s, w, x);
      ConsumedAt(w, at, |records|, w', b);
      SameRecord(s, w, w', b, i);
      if i < DoneAt(w', b) {
        var k := i - DoneAt(w, at);
        RecordIs(s, w, at, records, fates, produced, targets, from, w', k);
        ConsumedIsAccounted(s, w, at, records, fates, produced, targets, from, w', k);
      } else {
        PendingItself(s, w', b, i);
      }
    }
  }

  lemma AccountedBy(s: Settings, w: World, x: Lineage)
    requires Effected(s, w, x) || DeadLettered(w, x)
    ensures Accounted(s, w, x)
  {
    hide Effected, DeadLettered, Pending;
  }

  lemma StillPending(s: Settings, w: World, x: Lineage) returns (b: TopicPartition, i: nat)
    requires Accounted(s, w, x) && !Effected(s, w, x) && !DeadLettered(w, x)
    ensures DoneAt(w, b) <= i < |LogAt(w, b)| && LineageOf(s, RecordAt(w, b, i)) == x
  {
    hide Effected, DeadLettered, LineageOf, RecordAt, LogAt, DoneAt;
    b, i :| PendingAt(s, w, x, b, i);
  }

  lemma RecordIs(s: Settings, w: World, at: TopicPartition, records: seq<Selected>, fates: seq<Fate>,
                 produced: seq<Produced>, targets: seq<nat>, from: seq<nat>, w': World, k: nat)
    requires Transacts(s, w, at, records, fates, produced, targets, from, w') && k < |records|
    ensures DoneAt(w, at) + k < |LogAt(w, at)| && records[k].record == RecordAt(w, at, DoneAt(w, at) + k)
  {
    hide Run, Publish, RecordAt, Prepare, InRange, Conserves, AllDecided, DeadCycles, LogAt, DoneAt;
  }

  lemma TransactionBalances(s: Settings, w: World, at: TopicPartition, records: seq<Selected>, fates: seq<Fate>,
                            produced: seq<Produced>, targets: seq<nat>, from: seq<nat>, w': World)
    requires Transacts(s, w, at, records, fates, produced, targets, from, w')
    requires w.consumed == w.acked + w.copied + |w.dlq|
    ensures w'.consumed == w'.acked + w'.copied + |w'.dlq|
  {
    assert Conserves(s, records, fates, produced, from) && |fates| == |records|;
    ConservationCounts(fates, from);
    hide Run, Publish, RecordAt, Prepare, InRange, LogAt, DoneAt, Acks, DecidedBefore, DeadCycles;
    PublishGrows(w, produced, targets);
  }

  lemma TransactionIsSafe(s: Settings, w: World, at: TopicPartition, records: seq<Selected>, fates: seq<Fate>,
                          produced: seq<Produced>, targets: seq<nat>, from: seq<nat>, w': World)
    requires Apart(s) && Safe(s, w) && Transacts(s, w, at, records, fates, produced, targets, from, w')
    ensures Safe(s, w')
  {
    hide *;
    BalanceOf(s, w);
    OffsetsInside(s, w);
    TransactionBalances(s, w, at, records, fates, produced, targets, from, w');
    TransactionGrows(s, w, at, records, fates, produced, targets, from, w');
    InsideLog(s, w, at, records, fates, produced, targets, from, w');
    forall b, i: nat | i < |LogAt(w', b)| ensures Accounted(s, w', LineageOf(s, RecordAt(w', b, i))) {
      ConsumedAt(w, at, |records|, w', b);
      if i < DoneAt(w', b) {
        assert DoneAt(w, b) <= |LogAt(w, b)|;
        SameRecord(s, w, w', b, i);
        SafeAt(s, w, b, i);
        TransactionKeepsAccount(s, w, at, records, fates, produced, targets, from, w',
                                LineageOf(s, RecordAt(w, b, i)));
      } else {
        PendingItself(s, w', b, i);
      }
    }
    forall b ensures DoneAt(w', b) <= |LogAt(w', b)| {
      assert DoneAt(w, b) <= |LogAt(w, b)|;
      ConsumedAt(w, at, |records|, w', b);
      GrownLog(w, w', b);
    }
    SafeBy(s, w');
  }

  lemma SafeAt(s: Settings, w: World, at: TopicPartition, i: nat)
    requires Safe(s, w) && i < |LogAt(w, at)|
    ensures Accounted(s, w, LineageOf(s, RecordAt(w, at, i)))
  {
    hide LogAt, DoneAt, LineageOf, RecordAt, Accounted;
  }

  lemma OffsetsInside(s: Settings, w: World)
    requires Safe(s, w)
    ensures forall b :: DoneAt(w, b) <= |LogAt(w, b)|
  {
    hide LogAt, DoneAt, LineageOf, RecordAt, Accounted;
  }

  lemma SafeBy(s: Settings, w: World)
    requires forall at, i: nat | i < |LogAt(w, at)| :: Accounted(s, w, LineageOf(s, RecordAt(w, at, i)))
    requires forall b :: DoneAt(w, b) <= |LogAt(w, b)|
    requires w.consumed == w.acked + w.copied + |w.dlq|
    ensures Safe(s, w)
  {
    hide LogAt, DoneAt, LineageOf, RecordAt, Accounted;
  }

  lemma InsideLog(s: Settings, w: World, at: TopicPartition, records: seq<Selected>, fates: seq<Fate>,
                  produced: seq<Produced>, targets: seq<nat>, from: seq<nat>, w': World)
    requires Transacts(s, w, at, records, fates, produced, targets, from, w')
    ensures DoneAt(w, at) + |records| <= |LogAt(w, at)|
  {
    hide Run, Publish, RecordAt, Prepare, InRange, Conserves, AllDecided, DeadCycles, LogAt, DoneAt;
  }

  // ---------------------------------------------------------------- every run

  lemma CallGrows(w: World, call: Call)
    ensures Grows(w, w.(calls := w.calls + [call]))
  {
    RunGrows(w.calls, call);
    hide Run;
  }

  lemma ProducesGrows(w: World, at: TopicPartition, r: Stored)
    ensures Grows(w, w.(log := Append(w.log, at, r)))
  {
    hide Run, LogAt, Append;
    forall b ensures LogAt(w, b) <= LogAt(w.(log := Append(w.log, at, r)), b) {
      AppendedLog(w, at, r, b);
    }
  }

  lemma StepIsSafe(s: Settings, w: World, a: Action, w': World)
    requires Apart(s) && Safe(s, w) && Next(s, w, a, w')
    ensures Safe(s, w')
  {
    hide Transacts, Grows, Append, Apart;
    match a
    case Produces(at, r) =>
      ProducesGrows(w, at, r);
      BalanceOf(s, w);
      hide Safe;
      GrowthIsSafe(s, w, w');
    case Calls(call) =>
      CallGrows(w, call);
      BalanceOf(s, w);
      hide Safe;
      GrowthIsSafe(s, w, w');
    case Confirms(key, fp, now) =>
      CallGrows(w, DoConfirm(key, fp, now));
      BalanceOf(s, w);
      hide Safe;
      GrowthIsSafe(s, w, w');
    case Consumes(at, records, fates, produced, targets, from) =>
      hide Safe;
      TransactionIsSafe(s, w, at, records, fates, produced, targets, from, w');
  }

  lemma BalanceOf(s: Settings, w: World)
    requires Safe(s, w)
    ensures w.consumed == w.acked + w.copied + |w.dlq|
  {
    hide LogAt, DoneAt, LineageOf, RecordAt, Accounted;
  }

  /** In every reachable world no message is lost and consumption balances. */
  lemma {:induction false} EveryRunIsSafe(s: Settings, ws: seq<World>, actions: seq<Action>, k: nat)
    requires Apart(s) && Reachable(s, ws, actions) && k < |ws|
    ensures Safe(s, ws[k])
  {
    hide *;
    if k == 0 {
      StartIsSafe(s);
      StartsThere(s, ws, actions);
    } else {
      EveryRunIsSafe(s, ws, actions, k - 1);
      NextOnPath(s, ws, actions, k - 1);
      StepIsSafe(s, ws[k - 1], actions[k - 1], ws[k]);
    }
  }

  lemma StartIsSafe(s: Settings)
    ensures Safe(s, START)
  {
    hide Run, LineageOf, Accounted;
  }

  /** A record below the committed offset was effected, dead-lettered, or lives on as a copy that is
      still to be delivered. */
  lemma OffsetCommitIsSafe(s: Settings, ws: seq<World>, actions: seq<Action>, k: nat, at: TopicPartition, i: nat)
    requires Apart(s) && Reachable(s, ws, actions) && k < |ws|
    requires i < DoneAt(ws[k], at)
    ensures i < |LogAt(ws[k], at)|
    ensures var x := LineageOf(s, RecordAt(ws[k], at, i));
            || Effected(s, ws[k], x) || DeadLettered(ws[k], x)
            || exists b, j: nat :: PendingAt(s, ws[k], x, b, j) && (b, j) != (at, i)
  {
    EveryRunIsSafe(s, ws, actions, k);
    var w := ws[k];
    hide Reachable, Effected, DeadLettered, LineageOf, RecordAt, Run;
    assert DoneAt(w, at) <= |LogAt(w, at)|;
    var x := LineageOf(s, RecordAt(w, at, i));
    assert Accounted(s, w, x);
    if !Effected(s, w, x) && !DeadLettered(w, x) {
      var b, j: nat :| PendingAt(s, w, x, b, j);
      assert (b, j) != (at, i);
    }
  }

  // ---------------------------------------------------------------- closed cycles

  ghost predicate HandedOver(s: Settings, w: World, c: Cycle) {
    exists d | d in w.dlq :: Closes(s, d, c)
  }

  /** What a consumer may confirm, and what was confirmed, is in the dead-letter topic. */
  ghost predicate Backed(s: Settings, w: World) {
    && (forall c | c in w.handoffs :: HandedOver(s, w, c))
    && (forall k | 0 <= k < |w.calls| && w.calls[k].DoConfirm? :: HandedOver(s, w, CycleOf(w.calls[k].key, w.calls[k].fp)))
  }

  lemma StaysHandedOver(s: Settings, w: World, w': World, c: Cycle)
    requires w.dlq <= w'.dlq && HandedOver(s, w, c)
    ensures HandedOver(s, w', c)
  {
    hide Closes;
    var d :| d in w.dlq && Closes(s, d, c);
    assert d in w'.dlq;
  }

  /** A dead letter of a readable record closes exactly that record's cycle. */
  lemma LetterCloses(s: Settings, r: Selected, now: Time, f: Fate, d: Produced, w: World)
    requires r.prepared == Prepare(s.subscription, r.record, now) && r.prepared.Ready?
    requires f.Dead? && Makes(s, r, f, d) && d in w.dlq
    ensures var item := ItemOf(s, r.prepared.control, r.prepared.message); HandedOver(s, w, CycleOf(item.key, item.fp))
  {
    MadeIs(s, r, f, d);
    LineageFields(s, r.record, now);
    hide Prepare, Makes;
    var item := ItemOf(s, r.prepared.control, r.prepared.message);
    assert Closes(s, d, CycleOf(item.key, item.fp));
  }

  /** The cycles that a committed transaction leaves to be confirmed are those of messages that the same
      transaction put into the dead-letter topic. */
  lemma DeadCyclesHandedOver(s: Settings, w: World, at: TopicPartition, records: seq<Selected>, fates: seq<Fate>,
                             produced: seq<Produced>, targets: seq<nat>, from: seq<nat>, w': World, c: Cycle)
    requires Transacts(s, w, at, records, fates, produced, targets, from, w') && c in DeadCycles(s, records, fates)
    ensures HandedOver(s, w', c)
  {
    var k :| 0 <= k < |records| && k < |fates| && fates[k].Dead? && fates[k].confirm && records[k].prepared.Ready?
             && c == CycleOf(ItemOf(s, records[k].prepared.control, records[k].prepared.message).key, records[k].prepared.message.fp);
    hide *;
    var now, n := FateAt(s, w, at, records, fates, produced, targets, from, w', k);
    TransactionGrows(s, w, at, records, fates, produced, targets, from, w');
    var j := ProducedFor(s, records, fates, produced, from, k);
    MadeIs(s, records[k], fates[k], produced[j]);
    DeadIsPublished(w, produced, targets, j);
    LetterCloses(s, records[k], now, fates[k], produced[j], w');
    ItemFields(s, records[k].prepared.control, records[k].prepared.message);
  }

  lemma ItemFields(s: Settings, c: Control, m: Envelope)
    ensures ItemOf(s, c, m).fp == m.fp
  {
  }

  lemma ConsumeIsBacked(s: Settings, w: World, at: TopicPartition, records: seq<Selected>, fates: seq<Fate>,
                        produced: seq<Produced>, targets: seq<nat>, from: seq<nat>, w': World)
    requires Backed(s, w) && Transacts(s, w, at, records, fates, produced, targets, from, w')
    ensures Backed(s, w')
  {
    TransactionGrows(s, w, at, records, fates, produced, targets, from, w');
    assert w.dlq <= w'.dlq by {
      hide Run, LogAt, Transacts;
    }
    hide Transacts, HandedOver, Grows, DeadCycles, Publish, LogAt, DoneAt;
    forall c | c in w'.handoffs ensures HandedOver(s, w', c) {
      if c in w.handoffs {
        StaysHandedOver(s, w, w', c);
      } else {
        DeadCyclesHandedOver(s, w, at, records, fates, produced, targets, from, w', c);
      }
    }
    forall k | 0 <= k < |w'.calls| && w'.calls[k].DoConfirm?
      ensures HandedOver(s, w', CycleOf(w'.calls[k].key, w'.calls[k].fp))
    {
      StaysHandedOver(s, w, w', CycleOf(w.calls[k].key, w.calls[k].fp));
    }
  }

  lemma CallIsBacked(s: Settings, w: World, call: Call, w': World)
    requires Backed(s, w) && w' == w.(calls := w.calls + [call])
    requires call.DoConfirm? ==> CycleOf(call.key, call.fp) in w.handoffs
    ensures Backed(s, w')
  {
    hide Closes;
    forall c | HandedOver(s, w, c) ensures HandedOver(s, w', c) {
      StaysHandedOver(s, w, w', c);
    }
    hide HandedOver;
    forall k | 0 <= k < |w'.calls| && w'.calls[k].DoConfirm?
      ensures HandedOver(s, w', CycleOf(w'.calls[k].key, w'.calls[k].fp))
    {
      assert k < |w.calls| ==> w'.calls[k] == w.calls[k];
    }
  }

  lemma StepIsBacked(s: Settings, w: World, a: Action, w': World)
    requires Backed(s, w) && Next(s, w, a, w')
    ensures Backed(s, w')
  {
    hide Transacts, Append, CycleOf;
    match a
    case Produces(at, r) =>
      forall c | HandedOver(s, w, c) ensures HandedOver(s, w', c) {
        StaysHandedOver(s, w, w', c);
      }
      hide HandedOver;
    case Calls(call) =>
      hide Backed;
      CallIsBacked(s, w, call, w');
    case Confirms(key, fp, now) =>
      hide Backed;
      CallIsBacked(s, w, DoConfirm(key, fp, now), w');
    case Consumes(at, records, fates, produced, targets, from) =>
      hide Backed;
      ConsumeIsBacked(s, w, at, records, fates, produced, targets, from, w');
  }

  lemma {:induction false} EveryRunIsBacked(s: Settings, ws: seq<World>, actions: seq<Action>, k: nat)
    requires Reachable(s, ws, actions) && k < |ws|
    ensures Backed(s, ws[k])
  {
    if k > 0 {
      hide Backed, Next;
      EveryRunIsBacked(s, ws, actions, k - 1);
      assert Next(s, ws[k - 1], actions[k - 1], ws[k - 1 + 1]);
      StepIsBacked(s, ws[k - 1], actions[k - 1], ws[k]);
    }
  }

  /** In every reachable world a closed cycle still has its terminal row or its message is in the
      dead-letter topic: retention never discards a closed message that was not handed over. */
  lemma ClosedIsProtected(s: Settings, ws: seq<World>, actions: seq<Action>, k: nat, i: nat, c: Cycle)
    requires Reachable(s, ws, actions) && k < |ws|
    requires var log := InboxLog(ws[k]); i < |log| && log[i] == Recorded(c) && LeftAlone(log, i, c)
    ensures c in Inbox(ws[k]).terminal || HandedOver(s, ws[k], c)
  {
    EveryRunIsBacked(s, ws, actions, k);
    var w := ws[k];
    ClosedOrConfirmed(w.calls, i, c);
    hide Run, LeftAlone, HandedOver, Reachable;
    if c !in Inbox(w).terminal {
      var j :| 0 <= j < |w.calls| && ConfirmsCycle(w.calls[j], c);
    }
  }

  // ---------------------------------------------------------------- the consumer takes these steps

  /** Broker contract: of every partition a session polls consecutive records from its committed offset on. */
  ghost predicate Fetched(w: World, polled: seq<Polled>) {
    forall at, i: nat | i < |Own(polled, at)| ::
      && DoneAt(w, at) + i < |LogAt(w, at)|
      && Own(polled, at)[i].record == RecordAt(w, at, DoneAt(w, at) + i)
  }

  lemma FetchedAt(w: World, polled: seq<Polled>, at: TopicPartition, i: nat)
    requires Fetched(w, polled) && i < |Own(polled, at)|
    ensures DoneAt(w, at) + i < |LogAt(w, at)|
    ensures Own(polled, at)[i].record == RecordAt(w, at, DoneAt(w, at) + i)
    ensures Own(polled, at)[i].record.offset == DoneAt(w, at) + i
  {
    hide Own;
    var r := Own(polled, at)[i].record;
  }

  /** The records a batch selects are the next ones of its partition, each looked at under some clock reading. */
  lemma BatchIsNext(s: Settings, cfg: Config, w: World, polled: seq<Polled>, at: TopicPartition)
    requires cfg.subscription == s.subscription && Fetched(w, polled) && Cut(cfg, Own(polled, at)) > 0
    ensures NextRecords(s, w, at, TakeAll(cfg, Own(polled, at)[..Cut(cfg, Own(polled, at))]))
  {
    var seen := Own(polled, at);
    var n := Cut(cfg, seen);
    var records := TakeAll(cfg, seen[..n]);
    FetchedAt(w, polled, at, n - 1);
    hide Own, Cut, RecordAt, LogAt, DoneAt, Prepare, Fetched;
    forall k | 0 <= k < |records|
      ensures records[k].record == RecordAt(w, at, DoneAt(w, at) + k) && LookedAt(s, records[k])
    {
      FetchedAt(w, polled, at, k);
      assert records[k].prepared == Prepare(s.subscription, records[k].record, seen[k].now);
    }
  }

  /** Selecting, processing and producing as the batch consumer does amounts to one step of the world. The
      records were polled and decided on in earlier states of the world; since then only this partition's
      committed offset has to be the same, which the session guarantees, while logs have grown and any other
      Inbox calls may have been made. */
  lemma ConsumerTakesStep(s: Settings, cfg: Config, early: World, w: World, n: nat, polled: seq<Polled>, at: TopicPartition,
                          fates: seq<Fate>, produced: seq<Produced>, targets: seq<nat>, from: seq<nat>) returns (w': World)
    requires cfg.subscription == s.subscription && Fetched(early, polled) && Cut(cfg, Own(polled, at)) > 0
    requires Grows(early, w) && DoneAt(w, at) == DoneAt(early, at) && n <= |w.calls|
    requires var records := TakeAll(cfg, Own(polled, at)[..Cut(cfg, Own(polled, at))]);
             AllOk(s, InboxAt(w, n), records, fates) && Conserves(s, records, fates, produced, from)
    requires |targets| == |produced|
    requires forall k | 0 <= k < |produced| && produced[k].RetryCopy? :: InRange(produced[k].control)
    ensures Transacts(s, w, at, TakeAll(cfg, Own(polled, at)[..Cut(cfg, Own(polled, at))]), fates, produced, targets, from, w')
    ensures DoneAt(w', at) == DoneAt(w, at) + Cut(cfg, Own(polled, at))
  {
    hide *;
    BatchIsNext(s, cfg, early, polled, at);
    var records := TakeAll(cfg, Own(polled, at)[..Cut(cfg, Own(polled, at))]);
    StillNext(s, early, w, at, records);
    w' := StepOf(s, w, n, at, records, fates, produced, targets, from);
    ConsumedAt(w, at, |records|, w', at);
  }

  lemma StillNext(s: Settings, early: World, w: World, at: TopicPartition, records: seq<Selected>)
    requires NextRecords(s, early, at, records) && Grows(early, w) && DoneAt(w, at) == DoneAt(early, at)
    ensures NextRecords(s, w, at, records)
  {
    hide LogAt, DoneAt, Grows, RecordAt, LookedAt, Run, Inbox, Apart, Safe;
    GrownLog(early, w, at);
    forall k | 0 <= k < |records|
      ensures records[k].record == RecordAt(w, at, DoneAt(w, at) + k)
    {
      SameRecord(s, early, w, at, DoneAt(early, at) + k);
    }
  }

  lemma OkIsDecided(s: Settings, w: World, n: nat, records: seq<Selected>, fates: seq<Fate>)
    requires n <= |w.calls| && AllOk(s, InboxAt(w, n), records, fates)
    ensures AllDecided(s, w, records, fates)
  {
    AllOkLength(s, InboxAt(w, n), records, fates);
    hide Run, AllOk, FateOk, InboxAt;
    forall k | 0 <= k < |records| ensures DecidedBefore(s, w, records[k].prepared, fates[k]) {
      AllOkAt(s, InboxAt(w, n), records, fates, k);
    }
  }

  lemma StepOf(s: Settings, w: World, n: nat, at: TopicPartition, records: seq<Selected>, fates: seq<Fate>,
               produced: seq<Produced>, targets: seq<nat>, from: seq<nat>) returns (w': World)
    requires NextRecords(s, w, at, records)
    requires n <= |w.calls| && AllOk(s, InboxAt(w, n), records, fates) && Conserves(s, records, fates, produced, from)
    requires |targets| == |produced|
    requires forall k | 0 <= k < |produced| && produced[k].RetryCopy? :: InRange(produced[k].control)
    ensures Transacts(s, w, at, records, fates, produced, targets, from, w')
    ensures w'.done == w.done[at := DoneAt(w, at) + |records|]
    ensures w'.calls == w.calls && w'.handoffs == w.handoffs + DeadCycles(s, records, fates)
  {
    hide *;
    OkIsDecided(s, w, n, records, fates);
    AfterCommitFields(s, w, at, records, fates, produced, targets);
    w' := AfterCommit(s, w, at, records, fates, produced, targets);
    TransactsBy(s, w, at, records, fates, produced, targets, from);
  }

  lemma AfterCommitFields(s: Settings, w: World, at: TopicPartition, records: seq<Selected>, fates: seq<Fate>,
                        produced: seq<Produced>, targets: seq<nat>)
    requires |targets| == |produced|
    ensures var w' := AfterCommit(s, w, at, records, fates, produced, targets);
            && w'.done == w.done[at := DoneAt(w, at) + |records|]
            && w'.calls == w.calls && w'.handoffs == w.handoffs + DeadCycles(s, records, fates)
  {
    hide Publish, Acks, LogAt, DoneAt, DeadCycles;
    PublishGrows(w, produced, targets);
  }

  lemma TransactsBy(s: Settings, w: World, at: TopicPartition, records: seq<Selected>, fates: seq<Fate>,
                    produced: seq<Produced>, targets: seq<nat>, from: seq<nat>)
    requires NextRecords(s, w, at, records) && AllDecided(s, w, records, fates)
    requires Conserves(s, records, fates, produced, from) && |targets| == |produced|
    requires forall k | 0 <= k < |produced| && produced[k].RetryCopy? :: InRange(produced[k].control)
    ensures Transacts(s, w, at, records, fates, produced, targets, from, AfterCommit(s, w, at, records, fates, produced, targets))
  {
    hide NextRecords, AllDecided, Conserves, InRange, AfterCommit;
  }

  lemma {:induction false} EarliestIsFirst(w: World, ps: seq<Polled>, at: TopicPartition, from: nat)
    requires forall i: nat | i < |Own(ps, at)| :: Own(ps, at)[i].record.offset == from + i
    ensures Own(ps, at) != [] ==> Earliest(ps, at).Some? && Earliest(ps, at).value.offset == from
    ensures Own(ps, at) == [] ==> Earliest(ps, at).None?
  {
    if ps != [] {
      var n := |ps| - 1;
      var before := Own(ps[..n], at);
      assert before <= Own(ps, at);
      forall i: nat | i < |before| ensures before[i].record.offset == from + i {
        assert before[i] == Own(ps, at)[i];
      }
      EarliestIsFirst(w, ps[..n], at, from);
      if Place(ps[n].record) == at {
        assert Own(ps, at)[|before|] == ps[n];
      }
    }
  }

  /** The offsets map set for a batch is exactly the committed position after its step: the batch's own
      length further on its partition, unchanged on every other polled partition. */
  lemma OffsetsMatchStep(cfg: Config, w: World, polled: seq<Polled>, at: TopicPartition,
                         earliest: map<TopicPartition, EpochOffset>, b: TopicPartition)
    requires Fetched(w, polled) && TracksEarliest(earliest, polled)
    requires Cut(cfg, Own(polled, at)) > 0 && Own(polled, b) != []
    ensures var k := Cut(cfg, Own(polled, at));
            var offsets := ProcessedOffsets(earliest, Own(polled, at)[k - 1].record);
            b in offsets && offsets[b].offset == DoneAt(w, b) + (if b == at then k else 0)
  {
    var k := Cut(cfg, Own(polled, at));
    FetchedAt(w, polled, at, k - 1);
    OwnPlace(polled, at, k - 1);
    forall i: nat | i < |Own(polled, b)| ensures Own(polled, b)[i].record.offset == DoneAt(w, b) + i {
      FetchedAt(w, polled, b, i);
    }
    EarliestIsFirst(w, polled, b, DoneAt(w, b));
    hide Own, Cut, RecordAt, LogAt, DoneAt, Fetched, Earliest;
    assert Row(earliest, b) == Earliest(polled, b);
  }

  lemma {:induction false} OwnPlace(ps: seq<Polled>, at: TopicPartition, i: nat)
    requires i < |Own(ps, at)|
    ensures Place(Own(ps, at)[i].record) == at
  {
    var n := |ps| - 1;
    if i < |Own(ps[..n], at)| {
      OwnPlace(ps[..n], at, i);
    }
  }

  /** A subscription whose service topics are derived from its source topic tells its topics apart. */
  lemma DerivedTopicsApart(s: Settings)
    requires KafkaTopics.Printable(s.subscription.source)
    requires KafkaTopics.ConsumerTopic(s.subscription.source, s.consumer, KafkaTopics.Suffix(KafkaTopics.Replay))
             == Some(s.subscription.replay)
    requires forall t | t in s.subscription.retries ::
               exists tier: nat :: KafkaTopics.RetryTopic(s.subscription.source, s.consumer, tier) == Some(t)
    ensures Apart(s)
  {
    var source := s.subscription.source;
    hide KafkaTopics.Suffix, KafkaTopics.ConsumerTopic, KafkaTopics.Topic;
    PrintableIsValid(source);
    forall t | t in s.subscription.retries ensures t != source && t != s.subscription.replay {
      var tier: nat :| KafkaTopics.RetryTopic(source, s.consumer, tier) == Some(t);
      KafkaTopics.ServiceIsNeverSource(source, s.consumer, KafkaTopics.Retry(tier));
      if t == s.subscription.replay {
        KafkaTopics.ServiceTopicsDistinct(source, s.consumer, KafkaTopics.Retry(tier),
                                          source, s.consumer, KafkaTopics.Replay);
      }
    }
  }

  lemma PrintableIsValid(topic: string)
    requires KafkaTopics.Printable(topic)
    ensures KafkaTopics.ValidTopicName(topic)
  {
    hide KafkaTopics.ValidTopicName;
  }
}
