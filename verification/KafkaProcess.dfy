/** One Kafka consumer transaction: every selected record is acknowledged, copied to a retry topic or
    dead-lettered. */
module KafkaProcess {
  import opened InboxTables
  import opened BatchRuntime
  import opened InboxAttempt
  import opened InboxBatch
  import opened InboxBatchStore
  import opened InboxMaintenance
  import opened InboxAcks
  import opened Deliveries
  import opened DeliveryBatches
  import opened KafkaControl
  import opened KafkaRecords
  import opened KafkaBatch
  import Backoff
  import InboxSqlite

  datatype Settings = Settings(consumer: string, limit: nat, subscription: Subscription,
                               retryTopics: seq<string>, tiers: seq<nat>) {
    /** What consumer construction checks and builds: one retry topic per tier. */
    predicate Valid() {
      && limit > 0 && tiers != [] && |tiers| == |retryTopics|
      && (forall k | 0 <= k < |retryTopics| :: retryTopics[k] in subscription.retries)
    }
  }

  function IdentityOf(s: Settings, m: Envelope): Identity {
    Identity(s.consumer, m.item)
  }

  function ItemOf(s: Settings, c: Control, m: Envelope): BatchItem {
    BatchItem(Key(IdentityOf(s, m), c.generation), m.fp)
  }

  /** A record produced in the consumer's own transaction; a retry copy prints its control metadata
      into its headers. */
  datatype Produced =
    | RetryCopy(topic: string, control: Control, message: Envelope)
    | DeadLetter(source: Position, generation: string, attempt: nat, original: Option<Envelope>)

  /** The promise behind a fate: only a readable message can be acknowledged, retried or confirmed, and
      then the tables back it up. */
  ghost predicate FateOk(s: Settings, db: Tables, p: Prepared, f: Fate) {
    match f
    case Ack => p.Ready? && CompletedAs(db, IdentityOf(s, p.message), p.message.fp)
    case Retry(_, _) => p.Ready?
    case Dead(attempt, confirm) =>
      attempt > 0 && (confirm ==> p.Ready? && AwaitsHandoff(db, ItemOf(s, p.control, p.message)))
  }

  /** Messages that never reach the Inbox: broken, expired or scheduled for later. */
  function Entrance(p: Prepared, now: Time): Option<Fate> {
    match p
    case Broken(_, attempt) => Some(Dead(AtLeastOne(attempt), false))
    case Waiting(_, _) => Some(Dead(1, false))
    case Ready(c, m) =>
      if m.expiresAt.Some? && m.expiresAt.value <= now then Some(Dead(AtLeastOne(c.attempt), false))
      else if m.notBefore.Some? && m.notBefore.value > now then Some(Retry(c.attempt, m.notBefore.value - now))
      else None
  }

  /** A message enters the Inbox only at an instant at which it may be handled; one that comes too early is
      scheduled for exactly its own time, and one that is kept out for good can never be handled again. */
  lemma EntranceWindow(p: Prepared, now: Time)
    requires p.Ready?
    ensures match Entrance(p, now)
            case None => InWindow(p.message.notBefore, p.message.expiresAt, now)
            case Some(Retry(attempt, delay)) =>
              attempt == p.control.attempt && delay > 0 && p.message.notBefore == Some(now + delay)
              && InWindow(None, p.message.expiresAt, now)
            case Some(Dead(_, confirm)) =>
              !confirm && forall t: Time | now <= t :: !InWindow(p.message.notBefore, p.message.expiresAt, t)
            case Some(Ack) => false
  {
  }

  // ---------------------------------------------------------------- single records

  /** One prepared record through the Inbox; outcome is what the handler returns if it is called. */
  method ProcessRecord(s: Settings, store: InboxSqlite.Backend, p: Prepared, outcome: Outcome, now: Time)
    returns (fate: Fate)
    requires s.Valid() && !p.Waiting?
    modifies store
    ensures FateOk(s, store.db, p, fate)
    ensures store.db == if Entrance(p, now).Some? then old(store.db)
                        else var item := ItemOf(s, p.control, p.message);
                             Attempt(old(store.db), item.key, item.fp, s.limit, outcome, now)
    ensures fate == if Entrance(p, now).Some? then Entrance(p, now).value
                    else var item := ItemOf(s, p.control, p.message);
                         FateOfReply(ReplyTo(old(store.db), item.key, item.fp, s.limit, outcome), s.limit)
  {
    hide Attempt, ReplyTo, Decide, AwaitsHandoff, FateOfReply;
    var early := Entrance(p, now);
    if early.Some? {
      return early.value;
    }
    var item := ItemOf(s, p.control, p.message);
    ReplyKept(store.db, item, s.limit, outcome, now);
    var reply, invoked := store.ProcessAttempt(item.key, item.fp, s.limit, outcome, now);
    fate := FateOfReply(reply, s.limit);
  }

  // ---------------------------------------------------------------- batches

  /** What the cut guarantees about the selected records. */
  ghost predicate Selectable(records: seq<Selected>) {
    && (forall i | 0 <= i < |records| :: !records[i].prepared.Waiting?)
    && (forall i, j | 0 <= i < j < |records| :: !Clash(records[i], records[j]))
  }

  lemma CutIsSelectable(cfg: Config, seen: seq<Polled>)
    requires cfg.Valid()
    ensures Selectable(TakeAll(cfg, seen[..Cut(cfg, seen)]))
  {
    CutLimits(cfg, seen);
    CutMeans(cfg, seen, 0);
    hide Cut, Bytes;
    forall i | 0 <= i < Cut(cfg, seen) ensures !Take(cfg, seen[i]).prepared.Waiting? {
      assert Admits(cfg, seen[..i], seen[i]);
    }
  }

  /** A selected record at the entrance of the Inbox. */
  function IncomingOf(s: Settings, r: Selected, now: Time): Incoming {
    match Entrance(r.prepared, now)
    case Some(fate) => Early(fate)
    case None => Enters(ItemOf(s, r.prepared.control, r.prepared.message), r.prepared.control.attempt)
  }

  function AllIncoming(s: Settings, records: seq<Selected>, now: Time): (r: seq<Incoming>)
    ensures |r| == |records| && forall i | 0 <= i < |r| :: r[i] == IncomingOf(s, records[i], now)
  {
    seq(|records|, i requires 0 <= i < |records| => IncomingOf(s, records[i], now))
  }

  /** Selection has ruled out the batches that the Inbox refuses for mixed consumers or generations. */
  lemma SelectedIsUniform(s: Settings, records: seq<Selected>, now: Time)
    requires Selectable(records)
    ensures Uniform(AllIncoming(s, records, now))
  {
    var ins := AllIncoming(s, records, now);
    forall i, j | 0 <= i < j < |ins| && ins[i].Enters? && ins[j].Enters?
      ensures ins[i].item.key.id.consumer == ins[j].item.key.id.consumer
      ensures ins[i].item.key.id == ins[j].item.key.id ==> ins[i].item.key == ins[j].item.key
    {
      assert !Clash(records[i], records[j]);
    }
  }

  /** Every fate is settled and keeps its promise against the given tables. */
  ghost predicate AllOk(s: Settings, db: Tables, records: seq<Selected>, fates: seq<Fate>) {
    |fates| == |records| && forall i | 0 <= i < |records| :: FateOk(s, db, records[i].prepared, fates[i])
  }

  lemma KeptIsOk(s: Settings, db: Tables, records: seq<Selected>, now: Time, indexes: seq<nat>, report: BatchReport,
                 fates: seq<Fate>)
    requires Selectable(records) && AllKept(db, AllIncoming(s, records, now), fates)
    requires FatesGiven(AllIncoming(s, records, now), indexes, report, fates)
    ensures AllOk(s, db, records, fates)
  {
    hide ReportedFate, AwaitsHandoff;
    var ins := AllIncoming(s, records, now);
    forall i | 0 <= i < |records| ensures FateOk(s, db, records[i].prepared, fates[i]) {
      assert ins[i].Enters? ==> Kept(db, ins[i].item, fates[i]);
    }
  }

  /** Runs one batch through the Inbox and gives every record exactly one fate; None means that the
      handler's answer was unusable, nothing was written and the batch is to be fetched again. */
  method ProcessKafkaBatch(s: Settings, store: InboxSqlite.Backend, records: seq<Selected>, handler: BatchHandler, now: Time)
    returns (fates: Option<seq<Fate>>, indexes: seq<nat>, valid: seq<BatchItem>)
    requires s.Valid() && Selectable(records)
    modifies store
    ensures Entered(AllIncoming(s, records, now), indexes, valid)
    ensures store.db == RunBatch(old(store.db), valid, s.limit, handler, now).0
    ensures var report := RunBatch(old(store.db), valid, s.limit, handler, now).1;
            if report.Rejected? && report.why.InvalidResult? then fates.None?
            else fates.Some? && FatesGiven(AllIncoming(s, records, now), indexes, report, fates.value)
    ensures fates.Some? ==> AllOk(s, store.db, records, fates.value)
  {
    hide *;
    LimitPositive(s);
    SelectedIsUniform(s, records, now);
    ghost var before := store.db;
    fates, indexes, valid := DecideBatch(store, s.limit, AllIncoming(s, records, now), handler, now);
    if fates.Some? {
      KeptIsOk(s, store.db, records, now, indexes, RunBatch(before, valid, s.limit, handler, now).1, fates.value);
    }
  }

  lemma LimitPositive(s: Settings)
    requires s.Valid()
    ensures s.limit > 0
  {
  }

  // ---------------------------------------------------------------- produced records

  /** What a fate other than an acknowledgement puts on the wire for its record. */
  ghost predicate Makes(s: Settings, r: Selected, f: Fate, p: Produced) {
    match f
    case Ack => false
    case Retry(attempt, _) =>
      && r.prepared.Ready? && p.RetryCopy? && p.topic in s.subscription.retries && p.message == r.prepared.message
      && p.control.notBefore.Some?
      && p.control == r.prepared.control.(attempt := attempt, notBefore := p.control.notBefore)
    case Dead(attempt, _) =>
      p == DeadLetter(r.prepared.control.source, r.prepared.control.generation, attempt, r.record.body)
  }

  /** Exactly the records that were not acknowledged are produced, in batch order, one each. */
  ghost predicate Conserves(s: Settings, records: seq<Selected>, fates: seq<Fate>, produced: seq<Produced>, from: seq<nat>) {
    && |from| == |produced| && Increasing(from)
    && (forall i: nat :: i in from <==> i < |fates| && !fates[i].Ack?)
    && (forall k | 0 <= k < |from| ::
          from[k] < |records| && from[k] < |fates| && Makes(s, records[from[k]], fates[from[k]], produced[k]))
  }

  /** A copy comes due when its delay has passed, and waits in the first tier that covers the delay. */
  ghost predicate Scheduled(s: Settings, f: Fate, now: Time, backoff: nat, p: Produced) {
    f.Retry? ==>
      var delay := if f.delay == 0 then backoff else f.delay;
      && p.RetryCopy? && p.control.notBefore == Some(now + delay)
      && exists tier | 0 <= tier < |s.tiers| && tier < |s.retryTopics| ::
           p.topic == s.retryTopics[tier] && CoversDelay(s.tiers, tier, delay)
  }

  method MakeRetry(s: Settings, r: Selected, f: Fate, now: Time, backoff: nat) returns (p: Produced)
    requires s.Valid() && f.Retry? && r.prepared.Ready?
    ensures Makes(s, r, f, p) && Scheduled(s, f, now, backoff, p)
  {
    var delay := if f.delay == 0 then backoff else f.delay;
    var tier := Backoff.RetryTier(s.tiers, delay);
    var control := r.prepared.control.(attempt := f.attempt, notBefore := Some(now + delay));
    p := RetryCopy(s.retryTopics[tier], control, r.prepared.message);
  }

  /** The first tier that is long enough, or the last one. */
  predicate CoversDelay(tiers: seq<nat>, tier: nat, delay: nat)
    requires tier < |tiers|
  {
    (forall i | 0 <= i < tier :: tiers[i] < delay) && (delay <= tiers[tier] || tier == |tiers| - 1)
  }

  /** What one record with a fate other than an acknowledgement produces. */
  method ProduceOne(s: Settings, r: Selected, f: Fate, now: Time, backoff: nat) returns (p: Produced)
    requires s.Valid() && !f.Ack? && (f.Retry? ==> r.prepared.Ready?)
    ensures Makes(s, r, f, p) && Scheduled(s, f, now, backoff, p)
  {
    if f.Retry? {
      p := MakeRetry(s, r, f, now, backoff);
    } else {
      p := DeadLetter(r.prepared.control.source, r.prepared.control.generation, f.attempt, r.record.body);
    }
  }

  lemma ConservesNext(s: Settings, records: seq<Selected>, fates: seq<Fate>, produced: seq<Produced>, from: seq<nat>, f: Fate)
    requires Conserves(s, records, fates, produced, from) && |fates| < |records|
    ensures f.Ack? ==> Conserves(s, records, fates + [f], produced, from)
    ensures forall p :: !f.Ack? && Makes(s, records[|fates|], f, p) ==>
                          Conserves(s, records, fates + [f], produced + [p], from + [|fates|])
  {
    hide Makes;
    var n, all := |fates|, fates + [f];
    assert all[..n] == fates && all[n] == f;
    forall i: nat ensures i in from + [n] <==> i in from || i == n {
    }
  }

  /** The positions of the dead letters whose hand-off is to be confirmed. */
  ghost predicate FlaggedDead(fates: seq<Fate>, confirm: seq<nat>) {
    Increasing(confirm) && forall i: nat :: i in confirm <==> i < |fates| && fates[i].Dead? && fates[i].confirm
  }

  lemma FlaggedNext(fates: seq<Fate>, confirm: seq<nat>, f: Fate)
    requires FlaggedDead(fates, confirm)
    ensures FlaggedDead(fates + [f], if f.Dead? && f.confirm then confirm + [|fates|] else confirm)
  {
    forall k | 0 <= k < |confirm| ensures confirm[k] < |fates| {
      assert confirm[k] in confirm;
    }
  }

  ghost predicate AllScheduled(s: Settings, fates: seq<Fate>, now: Time, backoff: seq<nat>, produced: seq<Produced>,
                               from: seq<nat>) {
    && |from| == |produced|
    && forall k | 0 <= k < |from| && from[k] < |fates| && from[k] < |backoff| ::
         Scheduled(s, fates[from[k]], now, backoff[from[k]], produced[k])
  }

  lemma ScheduledNext(s: Settings, fates: seq<Fate>, now: Time, backoff: seq<nat>, produced: seq<Produced>, from: seq<nat>,
                      f: Fate, p: Produced)
    requires AllScheduled(s, fates, now, backoff, produced, from) && |fates| < |backoff|
    requires Scheduled(s, f, now, backoff[|fates|], p) && forall k | 0 <= k < |from| :: from[k] < |fates|
    ensures AllScheduled(s, fates + [f], now, backoff, produced + [p], from + [|fates|])
  {
    hide Scheduled;
  }

  lemma ScheduledSkip(s: Settings, fates: seq<Fate>, now: Time, backoff: seq<nat>, produced: seq<Produced>, from: seq<nat>, f: Fate)
    requires AllScheduled(s, fates, now, backoff, produced, from) && forall k | 0 <= k < |from| :: from[k] < |fates|
    ensures AllScheduled(s, fates + [f], now, backoff, produced, from)
  {
    hide Scheduled;
  }

  lemma ConservesShape(s: Settings, records: seq<Selected>, fates: seq<Fate>, produced: seq<Produced>, from: seq<nat>)
    requires Conserves(s, records, fates, produced, from)
    ensures |from| == |produced| && (forall k | 0 <= k < |from| :: from[k] < |fates|)
    ensures |fates| == Acks(fates) + |produced|
  {
    hide Makes;
    ConservationCounts(fates, from);
  }

  lemma ProduceStart(s: Settings, records: seq<Selected>, now: Time, backoff: seq<nat>)
    ensures Conserves(s, records, [], [], []) && FlaggedDead([], []) && Acks([]) == 0
    ensures AllScheduled(s, [], now, backoff, [], [])
  {
  }

  lemma AcksNext(fates: seq<Fate>, f: Fate)
    ensures Acks(fates + [f]) == Acks(fates) + if f.Ack? then 1 else 0
  {
    assert (fates + [f])[..|fates|] == fates;
  }

  /** Everything a batch of fates puts on the wire, in batch order. */
  method Produce(s: Settings, records: seq<Selected>, fates: seq<Fate>, now: Time, backoff: seq<nat>, ghost db: Tables)
    returns (produced: seq<Produced>, confirm: seq<nat>, acked: nat, ghost from: seq<nat>)
    requires s.Valid() && AllOk(s, db, records, fates) && |backoff| == |records|
    ensures Conserves(s, records, fates, produced, from) && FlaggedDead(fates, confirm)
    ensures AllScheduled(s, fates, now, backoff, produced, from)
    ensures acked == Acks(fates) && |records| == acked + |produced|
  {
    hide *;
    produced, confirm, acked, from := [], [], 0, [];
    AllOkLength(s, db, records, fates);
    ProduceStart(s, records, now, backoff);
    assert fates[..0] == [];
    for n := 0 to |records|
      invariant Conserves(s, records, fates[..n], produced, from) && FlaggedDead(fates[..n], confirm)
      invariant AllScheduled(s, fates[..n], now, backoff, produced, from) && acked == Acks(fates[..n])
    {
      AllOkAt(s, db, records, fates, n);
      var f := fates[n];
      assert fates[..n + 1] == fates[..n] + [f];
      ConservesShape(s, records, fates[..n], produced, from);
      ConservesNext(s, records, fates[..n], produced, from, f);
      FlaggedNext(fates[..n], confirm, f);
      AcksNext(fates[..n], f);
      if f.Ack? {
        ScheduledSkip(s, fates[..n], now, backoff, produced, from, f);
        acked := acked + 1;
      } else {
        var p := ProduceOne(s, records[n], f, now, backoff[n]);
        ScheduledNext(s, fates[..n], now, backoff, produced, from, f, p);
        produced, from := produced + [p], from + [n];
        if f.Dead? && f.confirm {
          confirm := confirm + [n];
        }
      }
    }
    assert fates[..|fates|] == fates;
    ConservesShape(s, records, fates, produced, from);
  }

  lemma AllOkLength(s: Settings, db: Tables, records: seq<Selected>, fates: seq<Fate>)
    requires AllOk(s, db, records, fates)
    ensures |fates| == |records|
  {
  }

  function Acks(fates: seq<Fate>): nat {
    if fates == [] then 0 else Acks(fates[..|fates| - 1]) + if fates[|fates| - 1].Ack? then 1 else 0
  }

  /** A transaction consumes exactly as many records as it acknowledges plus produces. */
  lemma {:induction false} ConservationCounts(fates: seq<Fate>, from: seq<nat>)
    requires Increasing(from) && forall i: nat :: i in from <==> i < |fates| && !fates[i].Ack?
    ensures |fates| == Acks(fates) + |from|
    decreases |fates|
  {
    assert |from| > 0 ==> from[0] in from && from[0] < |fates|;
    if fates != [] {
      var n := |fates| - 1;
      if fates[n].Ack? {
        ConservationCounts(fates[..n], from);
      } else {
        var k := |from| - 1;
        LastIsGreatest(from, n);
        assert from[k] in from;
        forall i: nat ensures i in from[..k] <==> i < n && !fates[i].Ack? {
          if i in from {
            LastIsGreatest(from, i);
          }
        }
        ConservationCounts(fates[..n], from[..k]);
      }
    }
  }

  lemma AllOkAt(s: Settings, db: Tables, records: seq<Selected>, fates: seq<Fate>, n: nat)
    requires AllOk(s, db, records, fates) && n < |records|
    ensures |fates| == |records| && (fates[n].Retry? ==> records[n].prepared.Ready?)
    ensures FateOk(s, db, records[n].prepared, fates[n])
  {
    hide AwaitsHandoff;
    assert FateOk(s, db, records[n].prepared, fates[n]);
  }

  // ---------------------------------------------------------------- the whole transaction

  /** The items of the dead-lettered records whose hand-off is to be confirmed. */
  function Confirmable(s: Settings, records: seq<Selected>, confirm: seq<nat>): (r: seq<BatchItem>)
    requires forall k | 0 <= k < |confirm| :: confirm[k] < |records| && records[confirm[k]].prepared.Ready?
    ensures |r| == |confirm|
    ensures forall k | 0 <= k < |r| ::
              r[k] == ItemOf(s, records[confirm[k]].prepared.control, records[confirm[k]].prepared.message)
  {
    seq(|confirm|, k requires 0 <= k < |confirm| =>
          ItemOf(s, records[confirm[k]].prepared.control, records[confirm[k]].prepared.message))
  }

  lemma FlaggedAwait(s: Settings, db: Tables, records: seq<Selected>, fates: seq<Fate>, confirm: seq<nat>)
    requires AllOk(s, db, records, fates) && FlaggedDead(fates, confirm)
    ensures forall k | 0 <= k < |confirm| :: confirm[k] < |records| && records[confirm[k]].prepared.Ready?
    ensures forall k | 0 <= k < |confirm| ::
              var item := Confirmable(s, records, confirm)[k]; DecideConfirm(db, item.key, item.fp).ConfirmOk?
  {
    forall k | 0 <= k < |confirm|
      ensures confirm[k] < |records| && records[confirm[k]].prepared.Ready?
      ensures AwaitsHandoff(db, ItemOf(s, records[confirm[k]].prepared.control, records[confirm[k]].prepared.message))
    {
      assert confirm[k] in confirm;
      assert FateOk(s, db, records[confirm[k]].prepared, fates[confirm[k]]);
    }
  }

  /** The cycles of the records that were dead-lettered as closed. */
  function DeadCycles(s: Settings, records: seq<Selected>, fates: seq<Fate>): set<Cycle> {
    set k | 0 <= k < |records| && k < |fates| && fates[k].Dead? && fates[k].confirm && records[k].prepared.Ready? ::
      CycleOf(ItemOf(s, records[k].prepared.control, records[k].prepared.message).key, records[k].prepared.message.fp)
  }

  /** One batch from its selection to its end: the Inbox call, one broker transaction with everything that
      has to be produced, and, only once that has committed, the confirmation of the dead letters. commits
      is how the broker answers the transaction. */
  method HandOffBatch(s: Settings, store: InboxSqlite.Backend, records: seq<Selected>, handler: BatchHandler, now: Time,
                      backoff: seq<nat>, commits: bool, budget: nat)
    returns (committed: bool, fates: seq<Fate>, produced: seq<Produced>, ghost from: seq<nat>, ghost indexes: seq<nat>,
             ghost valid: seq<BatchItem>, ghost done: set<Cycle>)
    requires s.Valid() && Selectable(records) && |backoff| == |records|
    modifies store
    ensures Entered(AllIncoming(s, records, now), indexes, valid)
    ensures var (after, report) := RunBatch(old(store.db), valid, s.limit, handler, now);
            && (committed <==> commits && !(report.Rejected? && report.why.InvalidResult?))
            && store.db == (if committed then ConfirmedAt(after, done, now) else after)
            && (committed ==> AllOk(s, after, records, fates) && Conserves(s, records, fates, produced, from))
    ensures committed ==> |records| == Acks(fates) + |produced| && done <= DeadCycles(s, records, fates)
    ensures committed && |records| <= budget ==> done == DeadCycles(s, records, fates)
  {
    hide *;
    ghost var before := store.db;
    var decided, at, items := ProcessKafkaBatch(s, store, records, handler, now);
    committed, fates, produced, from, indexes, valid, done := false, [], [], [], at, items, {};
    if decided.None? {
      return;
    }
    fates := decided.value;
    ghost var after := store.db;
    var confirm, acked;
    produced, confirm, acked, from := Produce(s, records, fates, now, backoff, after);
    if !commits {
      return;
    }
    committed := true;
    FlaggedAwait(s, after, records, fates, confirm);
    done := ConfirmHandoffs(store, Confirmable(s, records, confirm), now, budget);
    ConfirmableCycles(s, after, records, fates, confirm);
  }

  lemma ConfirmableCycles(s: Settings, db: Tables, records: seq<Selected>, fates: seq<Fate>, confirm: seq<nat>)
    requires FlaggedDead(fates, confirm) && AllOk(s, db, records, fates)
    requires forall k | 0 <= k < |confirm| :: confirm[k] < |records| && records[confirm[k]].prepared.Ready?
    ensures CyclesOf(Confirmable(s, records, confirm)) == DeadCycles(s, records, fates)
    ensures |confirm| <= |records|
  {
    hide FateOk;
    var items := Confirmable(s, records, confirm);
    forall c | c in CyclesOf(items) ensures c in DeadCycles(s, records, fates) {
      var k :| 0 <= k < |items| && c == CycleOf(items[k].key, items[k].fp);
      assert confirm[k] in confirm;
    }
    forall c | c in DeadCycles(s, records, fates) ensures c in CyclesOf(items) {
      DeadIsConfirmable(s, records, fates, confirm, c);
    }
    IncreasingBound(confirm, |records|);
  }

  lemma DeadIsConfirmable(s: Settings, records: seq<Selected>, fates: seq<Fate>, confirm: seq<nat>, c: Cycle)
    requires FlaggedDead(fates, confirm) && c in DeadCycles(s, records, fates)
    requires forall k | 0 <= k < |confirm| :: confirm[k] < |records| && records[confirm[k]].prepared.Ready?
    ensures c in CyclesOf(Confirmable(s, records, confirm))
  {
    var i :| 0 <= i < |records| && i < |fates| && fates[i].Dead? && fates[i].confirm && records[i].prepared.Ready?
             && c == CycleOf(ItemOf(s, records[i].prepared.control, records[i].prepared.message).key, records[i].prepared.message.fp);
    assert i in confirm;
    var k :| 0 <= k < |confirm| && confirm[k] == i;
    assert Confirmable(s, records, confirm)[k] == ItemOf(s, records[i].prepared.control, records[i].prepared.message);
  }
}
