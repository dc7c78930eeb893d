/** ProcessBatchAttempt from end to end: validation, one transaction, one handler call,
    and the commit or rollback of everything. */
module InboxBatchStore {
  import opened InboxTables
  import opened BatchRuntime
  import opened InboxBatch
  import opened InboxGroups
  import opened InboxSqliteBatch
  import opened InboxSettlement
  import opened InboxClosing

  datatype HandlerReply = HandlerReply(items: seq<ItemResult>, err: Option<Failure>)

  datatype BatchFailure = EmptyBatch | BadLimit | MixedBatch | InvalidResult | TopLevel(failure: Failure)

  datatype BatchReport =
    | Rejected(why: BatchFailure)
    | Committed(outcomes: seq<ItemOutcome>, handled: seq<BatchItem>)

  type BatchHandler = seq<BatchItem> -> HandlerReply

  function ItemKeys(items: seq<BatchItem>): (r: seq<ItemKey>)
    ensures |r| == |items| && forall k | 0 <= k < |items| :: r[k] == items[k].key.id.item
  {
    seq(|items|, k requires 0 <= k < |items| => items[k].key.id.item)
  }

  function Outcomes(b: Batch): (r: seq<ItemOutcome>)
    ensures |r| == |b.items| && forall k | 0 <= k < |r| :: r[k] == b.OutcomeAt(k)
  {
    seq(|b.items|, k requires 0 <= k < |b.items| => b.OutcomeAt(k))
  }

  function Committing(b: Batch): (Tables, BatchReport) {
    (b.Result(), Committed(Outcomes(b), b.HandlerItems()))
  }

  /** What one batch call does to the tables and reports. */
  ghost function RunBatch(db: Tables, items: seq<BatchItem>, limit: nat, handler: BatchHandler, now: Time)
    : (Tables, BatchReport)
  {
    var b := Batch(db, items, limit, map[], now);
    if items == [] then (db, Rejected(EmptyBatch))
    else if limit == 0 then (db, Rejected(BadLimit))
    else if !SameConsumer(items) || !OneGeneration(items) then (db, Rejected(MixedBatch))
    else if b.HandlerItems() == [] then Committing(b)
    else Answer(b, handler(b.HandlerItems()))
  }

  ghost function Answer(b: Batch, reply: HandlerReply): (Tables, BatchReport) {
    if reply.err.Some? then
      (b.db, Rejected(if reply.items != [] || IsFailClosed(reply.err.value) then InvalidResult
                      else TopLevel(reply.err.value)))
    else if !IsCover(ItemKeys(b.HandlerItems()), reply.items) then (b.db, Rejected(InvalidResult))
    else Committing(b.(results := ResultsOf(reply.items)))
  }

  // ---------------------------------------------------------------- admission does not see the handler's answer

  lemma SameStored(b: Batch, c: Batch, id: Identity)
    requires b.db == c.db && b.items == c.items
    ensures b.Stored(id) == c.Stored(id)
  {
    b.PositionsSpec(id, |b.items|);
    c.PositionsSpec(id, |b.items|);
    IncreasingUnique(b.Positions(id), c.Positions(id));
  }

  lemma SameMatching(b: Batch, c: Batch, id: Identity)
    requires b.db == c.db && b.items == c.items
    ensures b.Matching(id) == c.Matching(id) && b.Lead(id) == c.Lead(id)
  {
    SameStored(b, c, id);
    b.MatchingSpec(id);
    c.MatchingSpec(id);
    hide Batch.Matching, Batch.Stored;
    IncreasingUnique(b.Matching(id), c.Matching(id));
  }

  lemma SameActive(b: Batch, results: map<ItemKey, Outcome>)
    ensures b.(results := results).Active() == b.Active()
    ensures b.(results := results).HandlerItems() == b.HandlerItems()
  {
    var c := b.(results := results);
    b.ActiveSpec();
    c.ActiveSpec();
    forall i: nat | i < |b.items| ensures b.IsActive(i) <==> c.IsActive(i) {
      SameMatching(b, c, b.items[i].key.id);
    }
    hide Batch.Active, Batch.IsActive;
    IncreasingUnique(b.Active(), c.Active());
  }

  // ---------------------------------------------------------------- after the handler

  lemma FollowsWell(b: Batch, f: Identity -> seq<Statement>)
    requires Follows(b, f)
    ensures WellTargeted(f)
  {
    forall id ensures PhaseOrdered(f(id)) && forall s | s in f(id) :: Target(s) == id {
      LeadOrdered(b, id);
      LeadStatementsTarget(b, id);
    }
  }

  /** The set-based increments, outcomes, completions and terminal marks. */
  method SettleActive(ghost b: Batch, ghost f: Identity -> seq<Statement>, items: seq<BatchItem>, limit: nat, now: Time,
                      active: seq<Group>, outcomes: seq<Outcome>, tx: Tables, ghost trace: seq<Statement>, slots: Slots)
    returns (tx': Tables, ghost trace': seq<Statement>, slots': Slots)
    requires b.items == items && b.limit == limit > 0 && b.now == now && OneGeneration(items)
    requires Follows(b, f) && WellTargeted(f)
    requires tx == ExecAll(b.db, trace) && Reached(trace, f, 1, {})
    requires InBrokerOrder(b, active) && Answered(b, active, outcomes) && SlotsFilled(b, slots, IdsOf(active)[..0])
    ensures tx' == ExecAll(b.db, trace') && Reached(trace', f, 4, {})
    ensures |slots'| == |items| && forall i | 0 <= i < |items| :: slots'[i] == Some(b.OutcomeAt(i))
  {
    hide *;
    BrokerOrderDistinct(b, active);
    AnsweredLength(b, active, outcomes);
    var consuming := SelectGroups(active, outcomes, 1);
    ChosenServe(b, f, 1, active, outcomes, consuming);
    Servable(b, f, 1, consuming);
    var order := LegacyFirst(items, consuming);
    ReorderedServe(b, f, 1, consuming, order);
    tx', trace' := ApplyRows(b, f, 1, items, now, order, tx, trace);
    slots' := FillOutcomes(b, f, items, limit, tx', trace', active, outcomes, slots);
    var successful := SelectGroups(active, outcomes, 2);
    ChosenServe(b, f, 2, active, outcomes, successful);
    tx', trace' := ApplyRows(b, f, 2, items, now, successful, tx', trace');
    var permanent := SelectGroups(active, outcomes, 3);
    ChosenServe(b, f, 3, active, outcomes, permanent);
    tx', trace' := ApplyRows(b, f, 3, items, now, permanent, tx', trace');
  }

  lemma BrokerOrderDistinct(b: Batch, active: seq<Group>)
    requires InBrokerOrder(b, active)
    ensures Distinct(IdsOf(active))
  {
  }

  lemma Servable(b: Batch, f: Identity -> seq<Statement>, k: nat, groups: seq<Group>)
    requires ServesPhase(b, f, k, groups)
    ensures forall j | 0 <= j < |groups| :: |groups[j].matching| > 0 && groups[j].matching[0] < |b.items|
  {
  }

  /** Without a waiting identity the settlement phases are empty. */
  lemma NothingWaiting(b: Batch, f: Identity -> seq<Statement>, trace: seq<Statement>, k: nat)
    requires Follows(b, f) && WellTargeted(f) && (forall id :: !Waiting(b, id)) && 0 < k < 5
    requires Reached(trace, f, k, {})
    ensures Reached(trace, f, k + 1, {})
  {
    hide Follows, Reached, InPhase, Waiting;
    forall id ensures InPhase(f(id), k) == [] {
      QuietPart(b, f, id, k);
    }
    ReachedNext(trace, f, k, {});
  }

  /** Deferral rows, terminal records, and the final result of the transaction. */
  method FinishBatch(ghost b: Batch, ghost f: Identity -> seq<Statement>, outcomes: seq<ItemOutcome>, now: Time,
                     tx: Tables, ghost trace: seq<Statement>)
    returns (tx': Tables)
    requires Follows(b, f) && WellTargeted(f) && b.limit > 0 && OneGeneration(b.items) && Reports(b, outcomes)
    requires b.now == now && tx == ExecAll(b.db, trace) && Reached(trace, f, 4, {})
    ensures tx' == b.Result()
  {
    hide *;
    ghost var trace';
    tx', trace' := PreserveDeferred(b, f, outcomes, tx, trace);
    tx', trace' := RecordTerminals(b, f, outcomes, now, tx', trace');
    BatchEnd(b, f, trace');
  }

  lemma BatchEnd(b: Batch, f: Identity -> seq<Statement>, trace: seq<Statement>)
    requires Follows(b, f) && Reached(trace, f, 6, {})
    ensures ExecAll(b.db, trace) == b.Result()
  {
    hide Reached, ExecAll, Batch.Result, LeadStatements;
    ReachedEnd(b, trace, f);
  }

  // ---------------------------------------------------------------- the whole call

  /** The batch as it will turn out: its handler, if it runs at all, sees exactly the active leads. */
  ghost function Eventually(db: Tables, items: seq<BatchItem>, limit: nat, handler: BatchHandler, now: Time): Batch {
    var b := Batch(db, items, limit, map[], now);
    if b.HandlerItems() == [] then b else b.(results := ResultsOf(handler(b.HandlerItems()).items))
  }

  /** RunBatch in terms of the eventual batch. */
  lemma RunBatchIs(db: Tables, items: seq<BatchItem>, limit: nat, handler: BatchHandler, now: Time)
    requires items != [] && limit > 0 && SameConsumer(items) && OneGeneration(items)
    ensures var b := Eventually(db, items, limit, handler, now); var reply := handler(b.HandlerItems());
            && b.db == db && b.items == items && b.limit == limit && b.now == now
            && (b.HandlerItems() == [] || (reply.err.None? && IsCover(ItemKeys(b.HandlerItems()), reply.items)) ==>
                  RunBatch(db, items, limit, handler, now) == Committing(b))
            && (b.HandlerItems() != [] && reply.err.Some? ==>
                  RunBatch(db, items, limit, handler, now)
                  == (db, Rejected(if reply.items != [] || IsFailClosed(reply.err.value) then InvalidResult
                                   else TopLevel(reply.err.value))))
            && (b.HandlerItems() != [] && reply.err.None? && !IsCover(ItemKeys(b.HandlerItems()), reply.items) ==>
                  RunBatch(db, items, limit, handler, now) == (db, Rejected(InvalidResult)))
            && (b.HandlerItems() != [] ==> b.results == ResultsOf(reply.items))
  {
    hide Committing, IsCover, Batch.HandlerItems, ResultsOf, SameConsumer, OneGeneration, IsFailClosed;
    var b0 := Batch(db, items, limit, map[], now);
    SameActive(b0, ResultsOf(handler(b0.HandlerItems()).items));
  }

  /** The items shown to the handler, and their keys, in the order of the active groups. */
  method HandlerView(ghost b: Batch, items: seq<BatchItem>, active: seq<Group>)
    returns (handled: seq<BatchItem>, expected: seq<ItemKey>)
    requires b.items == items && b.limit > 0 && InBrokerOrder(b, active)
    ensures handled == b.HandlerItems() && expected == ItemKeys(handled) && |handled| == |active|
    ensures forall k | 0 <= k < |active| :: expected[k] == active[k].id.item
  {
    hide Batch.Active, Batch.HandlerItems, Waiting;
    ActiveLeads(b, active);
    handled, expected := [], [];
    for k := 0 to |active|
      invariant |handled| == k && |expected| == k
      invariant forall j | 0 <= j < k :: handled[j] == b.HandlerItems()[j] && expected[j] == active[j].id.item
      invariant forall j | 0 <= j < k :: expected[j] == handled[j].key.id.item
    {
      AdmittedCycle(b, active[k]);
      handled := handled + [items[active[k].matching[0]]];
      expected := expected + [active[k].id.item];
    }
  }

  lemma ActiveLeads(b: Batch, active: seq<Group>)
    requires InBrokerOrder(b, active)
    ensures |b.HandlerItems()| == |active|
    ensures forall k | 0 <= k < |active| :: active[k].first < |b.items| && b.HandlerItems()[k] == b.items[active[k].first]
  {
    hide Waiting, Admitted, Batch.Active;
    forall k | 0 <= k < |active|
      ensures active[k].first < |b.items| && b.HandlerItems()[k] == b.items[active[k].first]
    {
      b.ActiveSpec();
      assert FirstsOf(active)[k] == b.Active()[k] && b.Active()[k] in b.Active();
    }
  }

  lemma AnsweredBy(b: Batch, active: seq<Group>, expected: seq<ItemKey>, reply: seq<ItemResult>, ordered: seq<Outcome>)
    requires b.results == ResultsOf(reply) && |expected| == |active| == |ordered|
    requires forall k | 0 <= k < |active| :: expected[k] == active[k].id.item
    requires forall k | 0 <= k < |expected| :: expected[k] in ResultsOf(reply) && ordered[k] == ResultsOf(reply)[expected[k]]
    ensures Answered(b, active, ordered)
  {
    hide ResultsOf;
  }

  method CheckConsumers(items: seq<BatchItem>) returns (ok: bool)
    ensures ok <==> SameConsumer(items)
  {
    for i := 0 to |items|
      invariant forall j | 0 <= j < i :: items[j].key.id.consumer == items[0].key.id.consumer
    {
      if items[i].key.id.consumer != items[0].key.id.consumer {
        return false;
      }
    }
    return true;
  }

  /** One batch in one transaction: everything it writes is the result of one single-delivery
      attempt per lead, and a refused batch writes nothing. */
  method ProcessBatch(db: Tables, items: seq<BatchItem>, limit: nat, handler: BatchHandler, now: Time)
    returns (tx: Tables, report: BatchReport)
    ensures (tx, report) == RunBatch(db, items, limit, handler, now)
  {
    if items == [] {
      return db, Rejected(EmptyBatch);
    }
    if limit == 0 {
      return db, Rejected(BadLimit);
    }
    var oneConsumer := CheckConsumers(items);
    ghost var b := Eventually(db, items, limit, handler, now);
    EventuallyFields(db, items, limit, handler, now);
    var ok, groups := PrepareGroups(b, items);
    if !oneConsumer || !ok {
      return db, Rejected(MixedBatch);
    }
    tx, report := TransactBatch(b, db, items, limit, handler, now, groups);
  }

  lemma EventuallyFields(db: Tables, items: seq<BatchItem>, limit: nat, handler: BatchHandler, now: Time)
    ensures var b := Eventually(db, items, limit, handler, now);
            b.db == db && b.items == items && b.limit == limit && b.now == now
  {
    hide Batch.HandlerItems, ResultsOf;
  }

  /** Admission inside the transaction, up to the handler call. */
  method AdmitBatch(ghost b: Batch, ghost f: Identity -> seq<Statement>, db: Tables, items: seq<BatchItem>, limit: nat,
                    groups: seq<Group>)
    returns (tx: Tables, ghost trace: seq<Statement>, active: seq<Group>, slots: Slots)
    requires b.db == db && b.items == items && b.limit == limit > 0 && OneGeneration(items)
    requires Follows(b, f) && Grouped(b, groups)
    ensures tx == ExecAll(db, trace) && Reached(trace, f, 1, {})
    ensures InBrokerOrder(b, active) && SlotsFilled(b, slots, IdsOf(active)[..0])
  {
    hide *;
    var order := LockOrder(b, groups);
    InsertPhase(b, f, order);
    tx, trace := InsertIdentities(b, f, db, items, order);
    active, slots := PrepareIdentities(b, f, items, limit, tx, trace, order);
    WaitingHaveGroups(b, order);
    active := SortActive(b, IdsOf(order), active);
    FillStart(b, slots, IdsOf(order), IdsOf(active));
  }

  lemma WaitingHaveGroups(b: Batch, order: seq<Group>)
    requires Grouped(b, order)
    ensures forall id :: Waiting(b, id) ==> id in IdsOf(order)
    ensures forall i | 0 <= i < |b.items| :: b.items[i].key.id in IdsOf(order)
  {
    forall id | Waiting(b, id) ensures id in IdsOf(order) {
      LeadHasGroup(b, order, id);
    }
  }

  lemma ReportIs(b: Batch, outcomes: seq<ItemOutcome>)
    requires |outcomes| == |b.items| && forall i | 0 <= i < |b.items| :: outcomes[i] == b.OutcomeAt(i)
    ensures Reports(b, outcomes) && outcomes == Outcomes(b)
  {
    hide Batch.OutcomeAt;
  }

  lemma NoneWaits(b: Batch, active: seq<Group>)
    requires InBrokerOrder(b, active) && active == []
    ensures forall id :: !Waiting(b, id)
    ensures IdsOf(active)[..0] == IdsOf(active)
  {
    AllWaiting(b, active);
  }

  lemma NobodyWaits(b: Batch, f: Identity -> seq<Statement>, trace: seq<Statement>, active: seq<Group>, slots: Slots)
    requires Follows(b, f) && WellTargeted(f) && Reached(trace, f, 1, {})
    requires InBrokerOrder(b, active) && active == [] && SlotsFilled(b, slots, IdsOf(active)[..0])
    ensures Reached(trace, f, 4, {}) && b.HandlerItems() == []
    ensures |slots| == |b.items| && forall i | 0 <= i < |b.items| :: slots[i] == Some(b.OutcomeAt(i))
  {
    hide *;
    NoneWaits(b, active);
    NothingWaiting(b, f, trace, 1);
    NothingWaiting(b, f, trace, 2);
    NothingWaiting(b, f, trace, 3);
    ActiveLeads(b, active);
    FillEnd(b, slots, IdsOf(active));
    FilledLength(b, slots, IdsOf(active));
  }

  method TransactBatch(ghost b: Batch, db: Tables, items: seq<BatchItem>, limit: nat, handler: BatchHandler, now: Time,
                       groups: seq<Group>)
    returns (tx: Tables, report: BatchReport)
    requires items != [] && limit > 0 && SameConsumer(items) && OneGeneration(items)
    requires b == Eventually(db, items, limit, handler, now) && Grouped(b, groups)
    ensures (tx, report) == RunBatch(db, items, limit, handler, now)
  {
    hide *;
    RunBatchIs(db, items, limit, handler, now);
    ghost var f := (id: Identity) => LeadStatements(b, id);
    FollowsIs(b, f);
    FollowsWell(b, f);
    ghost var trace;
    var active, slots;
    tx, trace, active, slots := AdmitBatch(b, f, db, items, limit, groups);
    if active == [] {
      NobodyWaits(b, f, trace, active, slots);
      var outcomes := Unwrap(slots);
      ReportIs(b, outcomes);
      tx := FinishBatch(b, f, outcomes, now, tx, trace);
      CommittingIs(b);
      return tx, Committed(outcomes, []);
    }
    var handled, expected := HandlerView(b, items, active);
    var reply := handler(handled);
    if reply.err.Some? {
      return db, Rejected(if reply.items != [] || IsFailClosed(reply.err.value) then InvalidResult
                          else TopLevel(reply.err.value));
    }
    var ok, ordered := ValidateResult(expected, reply.items);
    if !ok {
      return db, Rejected(InvalidResult);
    }
    AnsweredBy(b, active, expected, reply.items, ordered);
    tx, trace, slots := SettleActive(b, f, items, limit, now, active, ordered, tx, trace, slots);
    var outcomes := Unwrap(slots);
    ReportIs(b, outcomes);
    tx := FinishBatch(b, f, outcomes, now, tx, trace);
    CommittingIs(b);
    report := Committed(outcomes, handled);
  }

  lemma FollowsIs(b: Batch, f: Identity -> seq<Statement>)
    requires forall id :: f(id) == LeadStatements(b, id)
    ensures Follows(b, f)
  {
  }

  lemma CommittingIs(b: Batch)
    ensures Committing(b) == (b.Result(), Committed(Outcomes(b), b.HandlerItems()))
  {
  }

  // ---------------------------------------------------------------- what every batch guarantees

  /** The handler sees every logical key once, in strictly increasing broker order. */
  lemma HandlerSeesUniqueKeys(b: Batch)
    requires SameConsumer(b.items)
    ensures Increasing(b.Active()) && Distinct(ItemKeys(b.HandlerItems()))
  {
    b.ActiveSpec();
    var active := b.Active();
    forall j, k | 0 <= j < k < |active|
      ensures b.items[active[j]].key.id.item != b.items[active[k]].key.id.item
    {
      assert active[j] in active && active[k] in active;
      assert b.IsLead(active[j]) && b.IsLead(active[k]);
      hide Batch.Active, Batch.Lead;
      assert b.items[active[j]].key.id.consumer == b.items[active[k]].key.id.consumer;
    }
  }

  /** A refused batch leaves the tables alone; a committed one answers every position under its own key
      and fingerprint. */
  lemma BatchIsAllOrNothing(db: Tables, items: seq<BatchItem>, limit: nat, handler: BatchHandler, now: Time)
    ensures var (after, report) := RunBatch(db, items, limit, handler, now);
            && (report.Rejected? ==> after == db)
            && (report.Committed? ==>
                  && |report.outcomes| == |items|
                  && forall i | 0 <= i < |items| ::
                       report.outcomes[i].key == items[i].key && report.outcomes[i].fp == items[i].fp)
  {
    var b := Eventually(db, items, limit, handler, now);
    if items != [] && limit > 0 && SameConsumer(items) && OneGeneration(items) {
      RunBatchIs(db, items, limit, handler, now);
      hide RunBatch, Eventually, Batch.Result, Batch.OutcomeAt, Batch.HandlerItems, SameConsumer, OneGeneration, IsCover,
           ResultsOf;
      forall i | 0 <= i < |items| ensures b.OutcomeAt(i).key == items[i].key && b.OutcomeAt(i).fp == items[i].fp {
        CycleInLead(b, i);
      }
    }
  }
}
