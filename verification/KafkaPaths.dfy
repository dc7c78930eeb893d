/** The batch consumer takes steps of the hand-off machine: its Inbox call, its broker transaction and its
    confirmations are a path of worlds. */
module KafkaPaths {
  import opened InboxTables
  import opened InboxBatch
  import opened InboxBatchStore
  import opened InboxMaintenance
  import opened InboxAcks
  import opened InboxRuns
  import opened InboxGuarantees
  import opened Deliveries
  import opened DeliveryBatches
  import opened KafkaRecords
  import opened KafkaBatch
  import opened KafkaProcess
  import opened KafkaHandoff

  type Action = KafkaHandoff.Action

  /** A path from one world to another. */
  ghost predicate Leads(s: Settings, ws: seq<World>, actions: seq<Action>, w: World, w': World) {
    Path(s, ws, actions) && ws[0] == w && ws[|ws| - 1] == w'
  }

  lemma Nowhere(s: Settings, w: World)
    ensures Leads(s, [w], [], w, w)
  {
  }

  lemma Further(s: Settings, ws: seq<World>, actions: seq<Action>, w: World, mid: World, a: Action, w': World)
    requires Leads(s, ws, actions, w, mid) && Next(s, mid, a, w')
    ensures Leads(s, ws + [w'], actions + [a], w, w')
  {
    hide Next;
    var all, acts := ws + [w'], actions + [a];
    forall k | 0 <= k < |acts| ensures Next(s, all[k], acts[k], all[k + 1]) {
      if k < |actions| {
        assert Next(s, ws[k], actions[k], ws[k + 1]);
      }
    }
  }

  lemma Onward(s: Settings, xs: seq<World>, a: seq<Action>, ys: seq<World>, b: seq<Action>, u: World, v: World, w: World)
    requires Leads(s, xs, a, u, v) && Leads(s, ys, b, v, w)
    ensures |ys| > 0 && Leads(s, xs + ys[1..], a + b, u, w)
  {
    hide Next;
    var all, acts := xs + ys[1..], a + b;
    forall k | 0 <= k < |acts| ensures Next(s, all[k], acts[k], all[k + 1]) {
      if k < |a| {
        assert Next(s, xs[k], a[k], xs[k + 1]);
      } else {
        var j := k - |a|;
        assert Next(s, ys[j], b[j], ys[j + 1]);
        assert all[k] == ys[j] && all[k + 1] == ys[j + 1];
      }
    }
  }

  // ---------------------------------------------------------------- the Inbox call

  lemma {:induction false} CallsPath(s: Settings, w: World, calls: seq<Call>) returns (ws: seq<World>, actions: seq<Action>)
    requires forall k | 0 <= k < |calls| :: !calls[k].DoConfirm?
    ensures Leads(s, ws, actions, w, w.(calls := w.calls + calls))
    decreases |calls|
  {
    if calls == [] {
      ws, actions := [w], [];
      assert w.calls + calls == w.calls;
    } else {
      var n := |calls| - 1;
      ws, actions := CallsPath(s, w, calls[..n]);
      var mid, w' := w.(calls := w.calls + calls[..n]), w.(calls := w.calls + calls);
      assert w.calls + calls == w.calls + calls[..n] + [calls[n]];
      assert Next(s, mid, Calls(calls[n]), w');
      Further(s, ws, actions, w, mid, Calls(calls[n]), w');
      ws, actions := ws + [w'], actions + [Calls(calls[n])];
    }
  }

  /** A batch call is a path of Inbox calls that ends with the tables that the batch committed. */
  lemma InboxPath(s: Settings, w: World, items: seq<BatchItem>, limit: nat, handler: BatchHandler, now: Time)
    returns (ws: seq<World>, actions: seq<Action>, w': World)
    ensures Leads(s, ws, actions, w, w') && w' == w.(calls := w'.calls) && w.calls <= w'.calls
    ensures Inbox(w') == RunBatch(Inbox(w), items, limit, handler, now).0
  {
    var b := CommittedBatch(Inbox(w), items, limit, handler, now);
    var (after, report) := RunBatch(Inbox(w), items, limit, handler, now);
    hide RunBatch, Run, Batch.Result;
    if report.Committed? {
      LeadIds(b);
      var calls := AttemptCalls(b, b.Leads());
      ws, actions := CallsPath(s, w, calls);
      w' := w.(calls := w.calls + calls);
      BatchContinuesRun(w.calls, b);
    } else {
      ws, actions, w' := [w], [], w;
      Nowhere(s, w);
    }
  }

  // ---------------------------------------------------------------- the confirmations

  lemma ConfirmStep(w: World, key: Key, fp: Digest, now: Time)
    ensures Inbox(w.(calls := w.calls + [DoConfirm(key, fp, now)])) == Confirm(Inbox(w), key, fp, now)
  {
    var all := w.calls + [DoConfirm(key, fp, now)];
    assert all[..|all| - 1] == w.calls;
    hide Confirm, DecideConfirm;
  }

  /** Some item of the cycle finds its row to confirm. */
  ghost predicate CanConfirm(db: Tables, c: Cycle) {
    exists item: BatchItem :: CycleOf(item.key, item.fp) == c && DecideConfirm(db, item.key, item.fp).ConfirmOk?
  }

  lemma {:induction false} ConfirmsPath(s: Settings, w: World, done: set<Cycle>, now: Time)
    returns (ws: seq<World>, actions: seq<Action>, w': World)
    requires done <= w.handoffs && forall c | c in done :: CanConfirm(Inbox(w), c)
    ensures Leads(s, ws, actions, w, w') && w' == w.(calls := w'.calls)
    ensures Inbox(w') == ConfirmedAt(Inbox(w), done, now)
    decreases |done|
  {
    if done == {} {
      ws, actions, w' := [w], [], w;
      Nowhere(s, w);
      NoneConfirmed(Inbox(w), now);
    } else {
      hide Next, Leads;
      var c :| c in done;
      var mid;
      ws, actions, mid := ConfirmsPath(s, w, done - {c}, now);
      var item: BatchItem :| CycleOf(item.key, item.fp) == c && DecideConfirm(Inbox(w), item.key, item.fp).ConfirmOk?;
      ConfirmOne(Inbox(w), done - {c}, now, item);
      assert done - {c} + {c} == done;
      ConfirmStep(mid, item.key, item.fp, now);
      w' := mid.(calls := mid.calls + [DoConfirm(item.key, item.fp, now)]);
      ConfirmIsNext(s, mid, item.key, item.fp, now);
      hide Run, Confirm, DecideConfirm, ConfirmedAt, CycleOf, Next;
      Further(s, ws, actions, w, mid, Confirms(item.key, item.fp, now), w');
      ws, actions := ws + [w'], actions + [Confirms(item.key, item.fp, now)];
    }
  }

  lemma ConfirmIsNext(s: Settings, w: World, key: Key, fp: Digest, now: Time)
    requires CycleOf(key, fp) in w.handoffs
    ensures Next(s, w, Confirms(key, fp, now), w.(calls := w.calls + [DoConfirm(key, fp, now)]))
  {
  }

  lemma DeadCanConfirm(s: Settings, db: Tables, records: seq<Selected>, fates: seq<Fate>, c: Cycle)
    requires AllOk(s, db, records, fates) && c in DeadCycles(s, records, fates)
    ensures CanConfirm(db, c)
  {
    var k :| 0 <= k < |records| && k < |fates| && fates[k].Dead? && fates[k].confirm && records[k].prepared.Ready?
             && c == CycleOf(KafkaProcess.ItemOf(s, records[k].prepared.control, records[k].prepared.message).key,
                             records[k].prepared.message.fp);
    AllOkAt(s, db, records, fates, k);
    var item := KafkaProcess.ItemOf(s, records[k].prepared.control, records[k].prepared.message);
    assert AwaitsHandoff(db, item);
    assert DecideConfirm(db, item.key, item.fp).ConfirmOk?;
  }

  // ---------------------------------------------------------------- the whole hand-off

  /** A batch that the consumer hands off is a path of the machine: the calls of its Inbox transaction, one
      committed consumer transaction, and the confirmations of its dead letters. Both ends show the tables
      that the consumer saw and left. */
  lemma HandOffIsPath(s: Settings, w: World, at: TopicPartition, records: seq<Selected>, valid: seq<BatchItem>,
                      handler: BatchHandler, now: Time, fates: seq<Fate>, produced: seq<Produced>, targets: seq<nat>,
                      from: seq<nat>, done: set<Cycle>)
    returns (ws: seq<World>, actions: seq<Action>, w': World)
    requires NextRecords(s, w, at, records)
    requires AllOk(s, RunBatch(Inbox(w), valid, s.limit, handler, now).0, records, fates)
    requires Conserves(s, records, fates, produced, from) && |targets| == |produced|
    requires forall k | 0 <= k < |produced| && produced[k].RetryCopy? :: InRange(produced[k].control)
    requires done <= DeadCycles(s, records, fates)
    ensures Leads(s, ws, actions, w, w')
    ensures Inbox(w') == ConfirmedAt(RunBatch(Inbox(w), valid, s.limit, handler, now).0, done, now)
    ensures DoneAt(w', at) == DoneAt(w, at) + |records|
  {
    hide *;
    var mid, xs, a;
    xs, a, mid := InboxPath(s, w, valid, s.limit, handler, now);
    SameLog(s, w, mid, at, records);
    var n := |mid.calls|;
    LatestInbox(mid);
    var last := StepOf(s, mid, n, at, records, fates, produced, targets, from);
    StepIsNext(s, mid, at, records, fates, produced, targets, from, last);
    Further(s, xs, a, w, mid, Consumes(at, records, fates, produced, targets, from), last);
    SameInbox(mid, last);
    forall c | c in done ensures CanConfirm(Inbox(last), c) {
      DeadCanConfirm(s, Inbox(last), records, fates, c);
    }
    var ys, b;
    ys, b, w' := ConfirmsPath(s, last, done, now);
    Onward(s, xs + [last], a + [Consumes(at, records, fates, produced, targets, from)], ys, b, w, last, w');
    ws, actions := xs + [last] + ys[1..], a + [Consumes(at, records, fates, produced, targets, from)] + b;
    ConsumedAt(mid, at, |records|, last, at);
    SameDone(last, w', at);
  }

  lemma SameLog(s: Settings, w: World, w': World, at: TopicPartition, records: seq<Selected>)
    requires NextRecords(s, w, at, records) && w' == w.(calls := w'.calls)
    ensures NextRecords(s, w', at, records) && DoneAt(w', at) == DoneAt(w, at)
  {
    hide LookedAt;
    assert LogAt(w', at) == LogAt(w, at) && DoneAt(w', at) == DoneAt(w, at);
  }

  lemma SameDone(w: World, w': World, at: TopicPartition)
    requires w' == w.(calls := w'.calls)
    ensures DoneAt(w', at) == DoneAt(w, at)
  {
  }

  lemma LatestInbox(w: World)
    ensures InboxAt(w, |w.calls|) == Inbox(w)
  {
    assert w.calls[..|w.calls|] == w.calls;
  }

  lemma SameInbox(w: World, w': World)
    requires w'.calls == w.calls
    ensures Inbox(w') == Inbox(w)
  {
  }

  lemma StepIsNext(s: Settings, w: World, at: TopicPartition, records: seq<Selected>, fates: seq<Fate>,
                   produced: seq<Produced>, targets: seq<nat>, from: seq<nat>, w': World)
    requires Transacts(s, w, at, records, fates, produced, targets, from, w')
    ensures Next(s, w, Consumes(at, records, fates, produced, targets, from), w')
  {
    hide Transacts;
  }
}
