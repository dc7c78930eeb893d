/** A batch between the broker and the Inbox, whichever broker it came from: which deliveries enter the
    Inbox, what becomes of every delivery, and the confirmation of hand-offs. */
module DeliveryBatches {
  import opened InboxTables
  import opened BatchRuntime
  import opened InboxAttempt
  import opened InboxBatch
  import opened InboxBatchStore
  import opened InboxGroups
  import opened InboxMaintenance
  import opened InboxAcks
  import opened Deliveries
  import InboxSqlite

  /** A delivery whose fate is known before the Inbox is asked, or one that is handed in; attempt is what
      it reports if the whole call fails. */
  datatype Incoming = Early(fate: Fate) | Enters(item: BatchItem, attempt: nat)

  /** The promise behind a fate: an acknowledgement needs a durably completed identity, and a dead letter
      whose hand-off will be confirmed a durably closed cycle. */
  ghost predicate Kept(db: Tables, item: BatchItem, f: Fate) {
    match f
    case Ack => CompletedAs(db, item.key.id, item.fp)
    case Retry(_, _) => true
    case Dead(attempt, confirm) => attempt > 0 && (confirm ==> AwaitsHandoff(db, item))
  }

  /** A single attempt's fate keeps its promise against the tables that the attempt left. */
  lemma ReplyKept(db: Tables, item: BatchItem, limit: nat, outcome: Outcome, now: Time)
    requires limit > 0
    ensures Kept(Attempt(db, item.key, item.fp, limit, outcome, now), item,
                 FateOfReply(ReplyTo(db, item.key, item.fp, limit, outcome), limit))
  {
    var f := FateOfReply(ReplyTo(db, item.key, item.fp, limit, outcome), limit);
    hide ReplyTo, Attempt, AwaitsHandoff;
    if f.Ack? {
      CleanReplyCompletes(db, item.key, item.fp, limit, outcome, now);
    } else if f.Dead? && f.confirm {
      ClosedReplyRecords(db, item.key, item.fp, limit, outcome, now);
    }
  }

  // ---------------------------------------------------------------- entering

  /** One consumer, and never one logical key under two generations. */
  predicate Uniform(ins: seq<Incoming>) {
    forall i, j | 0 <= i < j < |ins| && ins[i].Enters? && ins[j].Enters? ::
      && ins[i].item.key.id.consumer == ins[j].item.key.id.consumer
      && (ins[i].item.key.id == ins[j].item.key.id ==> ins[i].item.key == ins[j].item.key)
  }

  /** Where the entering deliveries stand in the batch, and what is handed in for them. */
  ghost predicate Entered(ins: seq<Incoming>, indexes: seq<nat>, valid: seq<BatchItem>) {
    && |indexes| == |valid| && Increasing(indexes)
    && (forall i: nat :: i in indexes <==> i < |ins| && ins[i].Enters?)
    && (forall k | 0 <= k < |indexes| ::
          indexes[k] < |ins| && ins[indexes[k]].Enters? && valid[k] == ins[indexes[k]].item)
  }

  method EnterBatch(ins: seq<Incoming>) returns (slots: seq<Option<Fate>>, indexes: seq<nat>, valid: seq<BatchItem>)
    ensures Entered(ins, indexes, valid)
    ensures |slots| == |ins|
    ensures forall i | 0 <= i < |ins| :: slots[i] == if ins[i].Early? then Some(ins[i].fate) else None
  {
    slots, indexes, valid := [], [], [];
    for n := 0 to |ins|
      invariant |slots| == n && |indexes| == |valid| && Increasing(indexes)
      invariant forall i | 0 <= i < n :: slots[i] == if ins[i].Early? then Some(ins[i].fate) else None
      invariant forall i: nat :: i in indexes <==> i < n && ins[i].Enters?
      invariant forall k | 0 <= k < |indexes| ::
                  indexes[k] < n && ins[indexes[k]].Enters? && valid[k] == ins[indexes[k]].item
    {
      match ins[n]
      case Early(fate) => slots := slots + [Some(fate)];
      case Enters(item, _) => slots, indexes, valid := slots + [None], indexes + [n], valid + [item];
    }
  }

  /** Such a batch is never refused for mixed consumers or generations. */
  lemma EnteredIsUniform(ins: seq<Incoming>, indexes: seq<nat>, valid: seq<BatchItem>)
    requires Uniform(ins) && Entered(ins, indexes, valid)
    ensures SameConsumer(valid) && OneGeneration(valid)
  {
    forall i, j | 0 <= i < j < |valid|
      ensures valid[i].key.id.consumer == valid[j].key.id.consumer
      ensures valid[i].key.id == valid[j].key.id ==> valid[i].key == valid[j].key
    {
      assert indexes[i] < indexes[j];
    }
  }

  lemma EnteredShape(ins: seq<Incoming>, indexes: seq<nat>, valid: seq<BatchItem>)
    requires Entered(ins, indexes, valid)
    ensures |indexes| == |valid| && Increasing(indexes)
    ensures forall k | 0 <= k < |indexes| ::
              indexes[k] < |ins| && ins[indexes[k]].Enters? && valid[k] == ins[indexes[k]].item
  {
  }

  // ---------------------------------------------------------------- deciding

  /** The fate of an entering delivery whose Inbox call did or did not commit. */
  function ReportedFate(report: BatchReport, k: nat, attempt: nat): Fate
    requires report.Committed? ==> k < |report.outcomes|
  {
    if report.Committed? then FateOf(report.outcomes[k])
    else
      var f := if report.why.TopLevel? then report.why.failure else Failure(false, None, None, false, 0);
      Retry(attempt, if f.deferDelay.Some? then f.deferDelay.value
                     else if f.retryDelay.Some? then f.retryDelay.value else 0)
  }

  lemma ReportedKept(db: Tables, limit: nat, valid: seq<BatchItem>, handler: BatchHandler, now: Time, k: nat, attempt: nat)
    requires limit > 0 && k < |valid| && SameConsumer(valid) && OneGeneration(valid)
    ensures var (after, report) := RunBatch(db, valid, limit, handler, now);
            && (report.Committed? ==> |report.outcomes| == |valid|)
            && (report.Rejected? ==> after == db && (report.why.InvalidResult? || report.why.TopLevel?))
            && Kept(after, valid[k], ReportedFate(report, k, attempt))
  {
    var (after, report) := RunBatch(db, valid, limit, handler, now);
    RunBatchIs(db, valid, limit, handler, now);
    var b := Eventually(db, valid, limit, handler, now);
    hide RunBatch, Eventually, Batch.Result, Batch.OutcomeAt, Batch.HandlerItems, SameConsumer, OneGeneration, IsCover,
         ResultsOf, AwaitsHandoff;
    if report.Committed? {
      var o := b.OutcomeAt(k);
      if o.action == ACK {
        AckMeansComplete(b, k);
      } else if o.action == DLQ && o.failure.ClosedAs? {
        DeadMeansRecorded(b, k);
      }
    }
  }

  /** The fates of the deliveries kept out of the Inbox, and of the first k of those that entered it. */
  ghost predicate FilledUpTo(ins: seq<Incoming>, slots: seq<Option<Fate>>, indexes: seq<nat>, report: BatchReport, k: nat) {
    && |slots| == |ins| && k <= |indexes|
    && (report.Committed? ==> |report.outcomes| == |indexes|)
    && (forall i | 0 <= i < |ins| && ins[i].Early? :: slots[i] == Some(ins[i].fate))
    && (forall j | 0 <= j < k && indexes[j] < |ins| && ins[indexes[j]].Enters? ::
          slots[indexes[j]] == Some(ReportedFate(report, j, ins[indexes[j]].attempt)))
  }

  lemma FillStep(ins: seq<Incoming>, slots: seq<Option<Fate>>, indexes: seq<nat>, report: BatchReport, k: nat)
    requires FilledUpTo(ins, slots, indexes, report, k) && Increasing(indexes)
    requires k < |indexes| && indexes[k] < |ins| && ins[indexes[k]].Enters?
    ensures report.Committed? ==> k < |report.outcomes|
    ensures var fate := ReportedFate(report, k, ins[indexes[k]].attempt);
            FilledUpTo(ins, slots[indexes[k] := Some(fate)], indexes, report, k + 1)
  {
    hide ReportedFate;
  }

  /** What a batch call decides: every delivery has exactly one fate, its early one or its reported one. */
  ghost predicate FatesGiven(ins: seq<Incoming>, indexes: seq<nat>, report: BatchReport, fates: seq<Fate>) {
    && |fates| == |ins| && (report.Committed? ==> |report.outcomes| == |indexes|)
    && (forall i | 0 <= i < |ins| && ins[i].Early? :: fates[i] == ins[i].fate)
    && (forall j | 0 <= j < |indexes| && indexes[j] < |ins| && ins[indexes[j]].Enters? ::
          fates[indexes[j]] == ReportedFate(report, j, ins[indexes[j]].attempt))
  }

  lemma FillEnd(ins: seq<Incoming>, slots: seq<Option<Fate>>, indexes: seq<nat>, valid: seq<BatchItem>, report: BatchReport)
    requires Entered(ins, indexes, valid) && FilledUpTo(ins, slots, indexes, report, |indexes|)
    ensures |slots| == |ins| && forall i | 0 <= i < |slots| :: slots[i].Some?
    ensures FatesGiven(ins, indexes, report, Unwrap(slots))
  {
    hide ReportedFate;
    forall i | 0 <= i < |slots| ensures slots[i].Some? {
      if i in indexes {
        var j :| 0 <= j < |indexes| && indexes[j] == i;
      }
    }
  }

  /** Every entering delivery's fate keeps its promise against the given tables. */
  ghost predicate AllKept(db: Tables, ins: seq<Incoming>, fates: seq<Fate>) {
    |fates| == |ins| && forall i | 0 <= i < |ins| && ins[i].Enters? :: Kept(db, ins[i].item, fates[i])
  }

  lemma DecidedKept(db: Tables, limit: nat, ins: seq<Incoming>, handler: BatchHandler, now: Time,
                    indexes: seq<nat>, valid: seq<BatchItem>, fates: seq<Fate>)
    requires limit > 0 && Uniform(ins) && Entered(ins, indexes, valid)
    requires FatesGiven(ins, indexes, RunBatch(db, valid, limit, handler, now).1, fates)
    ensures AllKept(RunBatch(db, valid, limit, handler, now).0, ins, fates)
  {
    EnteredIsUniform(ins, indexes, valid);
    var (after, report) := RunBatch(db, valid, limit, handler, now);
    hide RunBatch, SameConsumer, OneGeneration, ReportedFate, Kept;
    forall i | 0 <= i < |ins| && ins[i].Enters? ensures Kept(after, ins[i].item, fates[i]) {
      assert i in indexes;
      var j :| 0 <= j < |indexes| && indexes[j] == i;
      ReportedKept(db, limit, valid, handler, now, j, ins[i].attempt);
    }
  }

  lemma EmptyRun(db: Tables, limit: nat, handler: BatchHandler, now: Time)
    ensures RunBatch(db, [], limit, handler, now) == (db, Rejected(EmptyBatch))
  {
  }

  lemma FillStart(ins: seq<Incoming>, slots: seq<Option<Fate>>, indexes: seq<nat>, report: BatchReport)
    requires |slots| == |ins| && forall i | 0 <= i < |ins| :: slots[i] == if ins[i].Early? then Some(ins[i].fate) else None
    requires report.Committed? ==> |report.outcomes| == |indexes|
    ensures FilledUpTo(ins, slots, indexes, report, 0)
  {
  }

  /** Runs one batch through the Inbox and gives every delivery exactly one fate; None means that the
      handler's answer was unusable, nothing was written and the batch has to come again. */
  method DecideBatch(store: InboxSqlite.Backend, limit: nat, ins: seq<Incoming>, handler: BatchHandler, now: Time)
    returns (fates: Option<seq<Fate>>, indexes: seq<nat>, valid: seq<BatchItem>)
    requires limit > 0 && Uniform(ins)
    modifies store
    ensures Entered(ins, indexes, valid)
    ensures store.db == RunBatch(old(store.db), valid, limit, handler, now).0
    ensures var report := RunBatch(old(store.db), valid, limit, handler, now).1;
            if report.Rejected? && report.why.InvalidResult? then fates.None?
            else fates.Some? && FatesGiven(ins, indexes, report, fates.value)
    ensures fates.Some? ==> AllKept(store.db, ins, fates.value)
    ensures fates.None? ==> store.db == old(store.db)
  {
    hide *;
    var slots;
    slots, indexes, valid := EnterBatch(ins);
    ghost var before := store.db;
    EnteredShape(ins, indexes, valid);
    EnteredIsUniform(ins, indexes, valid);
    var report := Rejected(EmptyBatch);
    if valid != [] {
      report := store.ProcessBatchAttempt(valid, limit, handler, now);
      ReportedKept(before, limit, valid, handler, now, 0, 0);
      if report.Rejected? && report.why.InvalidResult? {
        return None, indexes, valid;
      }
    } else {
      EmptyRun(before, limit, handler, now);
    }
    ghost var after := store.db;
    FillStart(ins, slots, indexes, report);
    for k := 0 to |indexes|
      invariant FilledUpTo(ins, slots, indexes, report, k) && |slots| == |ins| && store.db == after
    {
      FillStep(ins, slots, indexes, report, k);
      slots := slots[indexes[k] := Some(ReportedFate(report, k, ins[indexes[k]].attempt))];
    }
    FillEnd(ins, slots, indexes, valid, report);
    fates := Some(Unwrap(slots));
    DecidedKept(before, limit, ins, handler, now, indexes, valid, fates.value);
  }

  /** What a committed batch leaves is the sequential result of some batch on the same tables. */
  lemma CommittedBatch(db: Tables, items: seq<BatchItem>, limit: nat, handler: BatchHandler, now: Time) returns (b: Batch)
    ensures b.db == db
    ensures var (after, report) := RunBatch(db, items, limit, handler, now);
            if report.Committed? then after == b.Result() else after == db
  {
    hide Batch.Result, SameConsumer, OneGeneration, IsCover, ResultsOf, Outcomes;
    b := Batch(db, items, limit, map[], now);
    if b.HandlerItems() != [] {
      b := b.(results := ResultsOf(handler(b.HandlerItems()).items));
    }
  }

  // ---------------------------------------------------------------- confirming hand-offs

  function CyclesOf(items: seq<BatchItem>): set<Cycle> {
    set k | 0 <= k < |items| :: CycleOf(items[k].key, items[k].fp)
  }

  /** The given cycles confirmed no earlier than now, everything else as it was. */
  function ConfirmedAt(db: Tables, cycles: set<Cycle>, now: Time): Tables {
    db.(terminal := map c | c in db.terminal ::
                      if c in cycles then db.terminal[c].(confirmedAt := Some(Latest(db.terminal[c].confirmedAt, now)))
                      else db.terminal[c])
  }

  lemma NoneConfirmed(db: Tables, now: Time)
    ensures ConfirmedAt(db, {}, now) == db
  {
    assert ConfirmedAt(db, {}, now).terminal == db.terminal;
  }

  lemma ConfirmOne(db: Tables, cycles: set<Cycle>, now: Time, item: BatchItem)
    requires DecideConfirm(db, item.key, item.fp).ConfirmOk? && CycleOf(item.key, item.fp) !in cycles
    ensures DecideConfirm(ConfirmedAt(db, cycles, now), item.key, item.fp).ConfirmOk?
    ensures Confirm(ConfirmedAt(db, cycles, now), item.key, item.fp, now)
            == ConfirmedAt(db, cycles + {CycleOf(item.key, item.fp)}, now)
  {
  }

  /** Confirms every closed cycle of a finished batch once, in whatever order; it may run out of time
      after any number of them, and then leaves the rest unconfirmed. */
  method ConfirmHandoffs(store: InboxSqlite.Backend, items: seq<BatchItem>, now: Time, budget: nat)
    returns (ghost done: set<Cycle>)
    requires forall k | 0 <= k < |items| :: DecideConfirm(store.db, items[k].key, items[k].fp).ConfirmOk?
    modifies store
    ensures store.db == ConfirmedAt(old(store.db), done, now)
    ensures done <= CyclesOf(items) && (|items| <= budget ==> done == CyclesOf(items))
  {
    var seen: set<Cycle> := {};
    var used := 0;
    done := {};
    assert store.db.terminal == ConfirmedAt(store.db, {}, now).terminal;
    for n := 0 to |items|
      invariant store.db == ConfirmedAt(old(store.db), done, now) && used <= n && done == seen
      invariant done <= CyclesOf(items[..n]) && (n <= budget ==> done == CyclesOf(items[..n]))
    {
      assert items[..n + 1] == items[..n] + [items[n]];
      var c := CycleOf(items[n].key, items[n].fp);
      CyclesSnoc(items[..n], items[n]);
      if c !in seen && used < budget {
        ConfirmOne(old(store.db), done, now, items[n]);
        var reply := store.ConfirmTerminalHandoff(items[n].key, items[n].fp, now);
        seen, used, done := seen + {c}, used + 1, done + {c};
      }
    }
    assert items[..|items|] == items;
  }

  lemma CyclesSnoc(items: seq<BatchItem>, item: BatchItem)
    ensures CyclesOf(items + [item]) == CyclesOf(items) + {CycleOf(item.key, item.fp)}
  {
    var all := items + [item];
    forall c ensures c in CyclesOf(all) <==> c in CyclesOf(items) || c == CycleOf(item.key, item.fp) {
      if c in CyclesOf(items) {
        var k :| 0 <= k < |items| && c == CycleOf(items[k].key, items[k].fp);
        assert all[k] == items[k];
      }
      assert all[|items|] == item;
    }
  }
}
