/** The PostgreSQL backend's batch transaction: identities and attempt rows are read set by set, and the
    increment statement returns the new counters. */
module InboxPgsqlBatch {
  import opened InboxTables
  import opened BatchRuntime
  import opened InboxAttempt
  import opened InboxBatch
  import opened InboxGroups
  import opened InboxSqliteBatch
  import opened InboxSettlement
  import opened InboxBatchStore
  import Sorting

  // ---------------------------------------------------------------- reading in sets

  /** The locking SELECT over all requested identities. */
  method ReadIdentities(tx: Tables, order: seq<Group>) returns (rows: map<Identity, IdentityRow>)
    ensures forall id :: id in rows <==> id in IdsOf(order) && id in tx.identities
    ensures forall id | id in rows :: rows[id] == tx.identities[id]
  {
    rows := map[];
    for k := 0 to |order|
      invariant forall id :: id in rows <==> id in IdsOf(order)[..k] && id in tx.identities
      invariant forall id | id in rows :: id in tx.identities && rows[id] == tx.identities[id]
    {
      TakeStep(IdsOf(order), k);
      if order[k].id in tx.identities {
        rows := rows[order[k].id := tx.identities[order[k].id]];
      }
    }
    assert IdsOf(order)[..|order|] == IdsOf(order);
  }

  /** The attempt rows of all matching groups: one query for the legacy table, one for the generations. */
  method ReadBatchAttempts(items: seq<BatchItem>, tx: Tables, groups: seq<Group>) returns (states: map<Identity, AttemptState>)
    requires Distinct(IdsOf(groups))
    requires forall k | 0 <= k < |groups| :: |groups[k].matching| > 0 && groups[k].matching[0] < |items|
    ensures forall k | 0 <= k < |groups| ::
              (if groups[k].id in states then states[groups[k].id] else NO_STATE) == StateAt(tx, items[groups[k].matching[0]])
  {
    hide StateAt, ReadAttempt;
    states := map[];
    states := ReadPass(items, tx, groups, false, states);
    states := ReadPass(items, tx, groups, true, states);
    forall k | 0 <= k < |groups|
      ensures (if groups[k].id in states then states[groups[k].id] else NO_STATE) == StateAt(tx, items[groups[k].matching[0]])
    {
      StateIs(tx, items[groups[k].matching[0]]);
    }
  }

  lemma StateIs(db: Tables, item: BatchItem)
    ensures var row := ReadAttempt(db, CycleOf(item.key, item.fp));
            StateAt(db, item) == if row.Some? then row.value else NO_STATE
  {
  }

  method ReadPass(items: seq<BatchItem>, tx: Tables, groups: seq<Group>, generated: bool, before: map<Identity, AttemptState>)
    returns (states: map<Identity, AttemptState>)
    requires Distinct(IdsOf(groups))
    requires forall k | 0 <= k < |groups| :: |groups[k].matching| > 0 && groups[k].matching[0] < |items|
    ensures forall k | 0 <= k < |groups| ::
              Row(states, groups[k].id)
              == var item := items[groups[k].matching[0]];
                 if (item.key.generation != "") == generated && ReadAttempt(tx, CycleOf(item.key, item.fp)).Some?
                 then ReadAttempt(tx, CycleOf(item.key, item.fp)) else Row(before, groups[k].id)
  {
    hide ReadAttempt, CycleOf;
    states := before;
    for n := 0 to |groups|
      invariant forall k | 0 <= k < |groups| ::
                  Row(states, groups[k].id)
                  == var item := items[groups[k].matching[0]];
                     if k < n && (item.key.generation != "") == generated && ReadAttempt(tx, CycleOf(item.key, item.fp)).Some?
                     then ReadAttempt(tx, CycleOf(item.key, item.fp)) else Row(before, groups[k].id)
    {
      var item := items[groups[n].matching[0]];
      var row := ReadAttempt(tx, CycleOf(item.key, item.fp));
      assert forall k | 0 <= k < |groups| && k != n :: IdsOf(groups)[k] != IdsOf(groups)[n];
      if (item.key.generation != "") == generated && row.Some? {
        states := states[groups[n].id := row.value];
      }
    }
  }

  // ---------------------------------------------------------------- admission in two passes

  /** Slots once every group was split: conflicts are decided, the rest is open. */
  ghost predicate SplitAfter(b: Batch, slots: Slots, looked: seq<Identity>) {
    && |slots| == |b.items|
    && forall i | 0 <= i < |b.items| ::
         slots[i] == if b.items[i].key.id in looked && !b.Matches(i) then Some(b.OutcomeAt(i)) else None
  }

  /** The groups that have a lead, with their matching deliveries. */
  ghost predicate Matched(b: Batch, groups: seq<Group>, ids: seq<Identity>) {
    && (forall k | 0 <= k < |groups| :: HasLead(b, groups[k]))
    && Distinct(IdsOf(groups))
    && (forall id :: id in IdsOf(groups) <==> id in ids && b.Lead(id).Some?)
  }

  ghost predicate HasLead(b: Batch, g: Group) {
    b.Lead(g.id).Some? && g.matching == b.Matching(g.id) && g.first == b.Lead(g.id).value
  }

  lemma SplitStart(b: Batch, slots: Slots, ids: seq<Identity>)
    requires |slots| == |b.items| && forall i | 0 <= i < |slots| :: slots[i] == None
    ensures SplitAfter(b, slots, ids[..0]) && Matched(b, [], ids[..0])
  {
  }

  lemma SplitStep(b: Batch, gs: seq<Group>, k: nat, slots: Slots, mid: Slots, matching: seq<nat>)
    requires k < |gs| && IsGroup(b, gs[k]) && gs[k].id !in IdsOf(gs)[..k]
    requires SplitAfter(b, slots, IdsOf(gs)[..k]) && matching == b.Matching(gs[k].id) && |mid| == |b.items|
    requires forall i | 0 <= i < |b.items| ::
               mid[i] == if i in gs[k].entries && b.items[i].fp != b.Stored(gs[k].id)
                         then Some(ConflictOutcome(b.items[i])) else slots[i]
    ensures SplitAfter(b, mid, IdsOf(gs)[..k + 1])
  {
    TakeStep(IdsOf(gs), k);
    b.PositionsSpec(gs[k].id, |b.items|);
    forall i | 0 <= i < |b.items| && b.items[i].key.id == gs[k].id && !b.Matches(i)
      ensures b.OutcomeAt(i) == ConflictOutcome(b.items[i]) {
    }
  }

  lemma MatchedStep(b: Batch, gs: seq<Group>, k: nat, groups: seq<Group>, g: Group, add: bool)
    requires k < |gs| && gs[k].id !in IdsOf(gs)[..k] && Matched(b, groups, IdsOf(gs)[..k])
    requires g.id == gs[k].id && (add <==> b.Lead(g.id).Some?) && (add ==> HasLead(b, g))
    ensures Matched(b, if add then groups + [g] else groups, IdsOf(gs)[..k + 1])
  {
    hide HasLead, Batch.Lead;
    TakeStep(IdsOf(gs), k);
    if add {
      var next := groups + [g];
      assert IdsOf(next) == IdsOf(groups) + [g.id];
      DistinctSnoc(IdsOf(groups), g.id);
    }
  }

  /** First pass: conflicts against the stored fingerprints. */
  method SplitGroups(ghost b: Batch, ghost tx: Tables, items: seq<BatchItem>, rows: map<Identity, IdentityRow>, order: seq<Group>)
    returns (groups: seq<Group>, slots: Slots)
    requires b.items == items && Grouped(b, order)
    requires forall k | 0 <= k < |order| :: Inserted(b, tx, order[k].id)
    requires forall id | id in IdsOf(order) && id in tx.identities :: id in rows && rows[id] == tx.identities[id]
    ensures SplitAfter(b, slots, IdsOf(order)) && Matched(b, groups, IdsOf(order))
  {
    hide *;
    slots := seq(|items|, _ => None);
    groups := [];
    SplitStart(b, slots, IdsOf(order));
    for k := 0 to |order|
      invariant SplitAfter(b, slots, IdsOf(order)[..k]) && Matched(b, groups, IdsOf(order)[..k]) && |slots| == |items|
    {
      GroupAt(b, order, k);
      EntriesOf(b, order[k]);
      StoredIs(b, tx, order[k].id);
      var matching, mid := SplitEntries(items, order[k].entries, rows[order[k].id].fp, slots);
      MatchingIs(b, order[k], matching);
      SplitStep(b, order, k, slots, mid, matching);
      slots := mid;
      LeadIs(b, order[k], matching);
      if |matching| == 0 {
        MatchedStep(b, order, k, groups, order[k], false);
      } else {
        var g := order[k].(matching := matching, first := matching[0]);
        MatchedStep(b, order, k, groups, g, true);
        groups := groups + [g];
      }
    }
    assert IdsOf(order)[..|order|] == IdsOf(order);
  }

  lemma EntriesOf(b: Batch, g: Group)
    requires IsGroup(b, g)
    ensures Increasing(g.entries) && forall k | 0 <= k < |g.entries| :: g.entries[k] < |b.items|
  {
    b.PositionsSpec(g.id, |b.items|);
    assert forall k | 0 <= k < |g.entries| :: g.entries[k] in b.Positions(g.id);
  }

  lemma StoredIs(b: Batch, tx: Tables, id: Identity)
    requires Inserted(b, tx, id)
    ensures id in tx.identities && tx.identities[id].fp == b.Stored(id)
    ensures tx.identities[id].completedAt.Some? <==> Completed(b.db, id)
    ensures forall item: BatchItem | item.key.id == id :: StateAt(tx, item) == StateAt(b.db, item)
  {
  }

  lemma LeadIs(b: Batch, g: Group, matching: seq<nat>)
    requires matching == b.Matching(g.id)
    ensures b.Lead(g.id).Some? <==> |matching| > 0
    ensures |matching| > 0 ==> HasLead(b, g.(matching := matching, first := matching[0]))
  {
  }

  /** Slots while the matching groups are being decided. */
  ghost predicate DecidedAfter(b: Batch, slots: Slots, done: seq<Identity>) {
    && |slots| == |b.items|
    && forall i | 0 <= i < |b.items| ::
         slots[i] == if !b.Matches(i) then Some(b.OutcomeAt(i))
                     else if b.items[i].key.id in done then SlotAfter(b, i) else None
  }

  lemma DecideStart(b: Batch, slots: Slots, ids: seq<Identity>, groups: seq<Group>)
    requires SplitAfter(b, slots, ids) && forall i | 0 <= i < |b.items| :: b.items[i].key.id in ids
    ensures DecidedAfter(b, slots, IdsOf(groups)[..0]) && ActiveAmong(b, [], IdsOf(groups)[..0])
  {
    hide Batch.OutcomeAt, Batch.Matches;
  }

  /** A group that is settled without the handler. */
  lemma DecideSettled(b: Batch, groups: seq<Group>, k: nat, slots: Slots, after: Slots)
    requires k < |groups| && HasLead(b, groups[k]) && !Waiting(b, groups[k].id) && OneGeneration(b.items)
    requires groups[k].id !in IdsOf(groups)[..k] && DecidedAfter(b, slots, IdsOf(groups)[..k]) && |after| == |b.items|
    requires forall i | 0 <= i < |b.items| ::
               after[i] == if i in groups[k].matching
                           then Some(Copied(b.OutcomeAt(groups[k].first), b.items[i], i != groups[k].first)) else slots[i]
    ensures DecidedAfter(b, after, IdsOf(groups)[..k + 1])
  {
    var id := groups[k].id;
    TakeStep(IdsOf(groups), k);
    b.MatchingSpec(id);
    forall i | 0 <= i < |b.items| && b.items[i].key.id == id && b.Matches(i) ensures after[i] == Some(b.OutcomeAt(i)) {
      FollowerOutcome(b, id, i);
    }
  }

  /** A group that awaits the handler keeps its slots open. */
  lemma DecideOpen(b: Batch, groups: seq<Group>, k: nat, slots: Slots)
    requires k < |groups| && Waiting(b, groups[k].id) && DecidedAfter(b, slots, IdsOf(groups)[..k])
    requires groups[k].id !in IdsOf(groups)[..k]
    ensures DecidedAfter(b, slots, IdsOf(groups)[..k + 1])
  {
    hide Batch.OutcomeAt, Batch.Matches, Waiting;
    TakeStep(IdsOf(groups), k);
  }

  lemma DecideEnd(b: Batch, slots: Slots, ids: seq<Identity>, groups: seq<Group>, active: seq<Group>)
    requires DecidedAfter(b, slots, IdsOf(groups)) && Matched(b, groups, ids) && ActiveAmong(b, active, IdsOf(groups))
    requires forall i | 0 <= i < |b.items| :: b.items[i].key.id in ids
    ensures SlotsAfter(b, slots, ids) && ActiveAmong(b, active, ids)
  {
    forall i | 0 <= i < |b.items| && b.Matches(i) ensures b.items[i].key.id in IdsOf(groups) {
      var id := b.items[i].key.id;
      b.MatchingSpec(id);
      assert i in b.Matching(id);
    }
    hide Batch.OutcomeAt, Batch.Matches, Admitted, HasLead;
  }

  lemma LeadState(b: Batch, tx: Tables, g: Group)
    requires HasLead(b, g) && Inserted(b, tx, g.id) && b.limit > 0
    ensures |g.matching| > 0 && g.matching[0] == g.first < |b.items| && b.items[g.first].key.id == g.id
    ensures Increasing(g.matching) && forall k | 0 <= k < |g.matching| :: g.matching[k] < |b.items|
    ensures StateAt(tx, b.items[g.first]) == StateAt(b.db, b.items[g.first])
    ensures var state := StateAt(b.db, b.items[g.first]); var completed := Completed(b.db, g.id);
            && (Waiting(b, g.id) <==> !completed && !ClosedState(state, b.limit))
            && (!Waiting(b, g.id) ==> b.OutcomeAt(g.first) == SettledOutcome(b.items[g.first], completed, state))
            && (Waiting(b, g.id) ==> Admitted(b, g.(state := state)))
  {
    b.MatchingSpec(g.id);
    assert forall k | 0 <= k < |g.matching| :: g.matching[k] in b.Matching(g.id);
    StoredIs(b, tx, g.id);
    AdmissionIsDecision(b, g.first);
    hide SettledOutcome, ClosedState, StateAt, Batch.OutcomeAt, Inserted;
  }

  /** Second pass: completed and closed keys are settled, the rest await the handler. */
  method DecideGroups(ghost b: Batch, items: seq<BatchItem>, limit: nat, ghost tx: Tables, rows: map<Identity, IdentityRow>,
                      states: map<Identity, AttemptState>, groups: seq<Group>, before: Slots, ghost ids: seq<Identity>)
    returns (active: seq<Group>, slots: Slots)
    requires b.items == items && b.limit == limit > 0 && OneGeneration(items)
    requires SplitAfter(b, before, ids) && Matched(b, groups, ids) && forall i | 0 <= i < |items| :: items[i].key.id in ids
    requires forall k | 0 <= k < |groups| ::
               && Inserted(b, tx, groups[k].id) && groups[k].id in rows && groups[k].id in tx.identities
               && rows[groups[k].id] == tx.identities[groups[k].id]
               && |groups[k].matching| > 0 && groups[k].matching[0] < |items|
               && (if groups[k].id in states then states[groups[k].id] else NO_STATE)
                  == StateAt(tx, items[groups[k].matching[0]])
    ensures SlotsAfter(b, slots, ids) && ActiveAmong(b, active, ids)
  {
    hide *;
    slots, active := before, [];
    DecideStart(b, slots, ids, groups);
    SplitLength(b, before, ids);
    for k := 0 to |groups|
      invariant DecidedAfter(b, slots, IdsOf(groups)[..k]) && ActiveAmong(b, active, IdsOf(groups)[..k]) && |slots| == |items|
    {
      var g := groups[k];
      MatchedAt(b, groups, ids, k);
      LeadState(b, tx, g);
      StoredIs(b, tx, g.id);
      var state := if g.id in states then states[g.id] else NO_STATE;
      var completed := rows[g.id].completedAt.Some?;
      if completed || ClosedState(state, limit) {
        var next := AssignOutcome(items, g.matching, SettledOutcome(items[g.matching[0]], completed, state), slots);
        DecideSettled(b, groups, k, slots, next);
        ActiveStep(b, groups, k, active, g, false);
        slots := next;
      } else {
        DecideOpen(b, groups, k, slots);
        ActiveStep(b, groups, k, active, g.(state := state), true);
        active := active + [g.(state := state)];
      }
    }
    assert IdsOf(groups)[..|groups|] == IdsOf(groups);
    DecideEnd(b, slots, ids, groups, active);
  }

  lemma SplitLength(b: Batch, slots: Slots, ids: seq<Identity>)
    requires SplitAfter(b, slots, ids)
    ensures |slots| == |b.items|
  {
    hide Batch.OutcomeAt, Batch.Matches;
  }

  lemma MatchedAt(b: Batch, groups: seq<Group>, ids: seq<Identity>, k: nat)
    requires Matched(b, groups, ids) && k < |groups|
    ensures HasLead(b, groups[k]) && groups[k].id !in IdsOf(groups)[..k] && groups[k].id in ids
  {
    hide HasLead, Batch.Lead;
    assert IdsOf(groups)[k] in IdsOf(groups);
  }

  // ---------------------------------------------------------------- increments that return

  /** The counters that INSERT ... ON CONFLICT DO UPDATE ... RETURNING yields, table by table. */
  method ReturnedAttempts(items: seq<BatchItem>, tx: Tables, groups: seq<Group>) returns (attempts: map<Identity, nat>)
    requires Distinct(IdsOf(groups))
    requires forall k | 0 <= k < |groups| :: |groups[k].matching| > 0 && groups[k].matching[0] < |items|
    requires forall k | 0 <= k < |groups| :: ReadAttempt(tx, CycleAt(items, groups[k])).Some?
    ensures |attempts| == |groups|
    ensures forall k | 0 <= k < |groups| ::
              groups[k].id in attempts && attempts[groups[k].id] == ReadAttempt(tx, CycleAt(items, groups[k])).value.attempts
  {
    hide ReadAttempt, CycleAt, Only;
    var order := LegacyFirst(items, groups);
    ReorderedGroups(groups, order);
    Sorting.SameLength(order, groups);
    assert forall k | 0 <= k < |order| :: order[k] in groups;
    attempts := CountersOf(items, tx, order);
    hide Distinct;
    forall k | 0 <= k < |groups|
      ensures groups[k].id in attempts && attempts[groups[k].id] == ReadAttempt(tx, CycleAt(items, groups[k])).value.attempts
    {
      assert groups[k] in multiset(groups);
      assert groups[k] in order;
    }
  }

  method CountersOf(items: seq<BatchItem>, tx: Tables, order: seq<Group>) returns (attempts: map<Identity, nat>)
    requires Distinct(IdsOf(order))
    requires forall k | 0 <= k < |order| :: |order[k].matching| > 0 && order[k].matching[0] < |items|
    requires forall k | 0 <= k < |order| :: ReadAttempt(tx, CycleAt(items, order[k])).Some?
    ensures |attempts| == |order|
    ensures forall k | 0 <= k < |order| ::
              order[k].id in attempts && attempts[order[k].id] == ReadAttempt(tx, CycleAt(items, order[k])).value.attempts
  {
    hide ReadAttempt, CycleAt;
    attempts := map[];
    for n := 0 to |order|
      invariant attempts.Keys == set id | id in IdsOf(order)[..n]
      invariant forall k | 0 <= k < n ::
                  order[k].id in attempts && attempts[order[k].id] == ReadAttempt(tx, CycleAt(items, order[k])).value.attempts
    {
      TakeStep(IdsOf(order), n);
      assert forall k | 0 <= k < n :: IdsOf(order)[k] != IdsOf(order)[n];
      attempts := attempts[order[n].id := ReadAttempt(tx, CycleAt(items, order[n])).value.attempts];
    }
    assert IdsOf(order)[..|order|] == IdsOf(order);
    DistinctCount(IdsOf(order));
    assert |attempts| == |attempts.Keys|;
  }

  // ---------------------------------------------------------------- the transaction

  /** Admission inside the transaction, up to the handler call. */
  method AdmitInSets(ghost b: Batch, ghost f: Identity -> seq<Statement>, db: Tables, items: seq<BatchItem>, limit: nat,
                     groups: seq<Group>)
    returns (tx: Tables, ghost trace: seq<Statement>, active: seq<Group>, slots: Slots)
    requires b.db == db && b.items == items && b.limit == limit > 0 && OneGeneration(items)
    requires Follows(b, f) && Grouped(b, groups)
    ensures tx == ExecAll(db, trace) && Reached(trace, f, 1, {})
    ensures InBrokerOrder(b, active) && SlotsFilled(b, slots, IdsOf(active)[..0])
  {
    hide *;
    var order := LockOrder(b, groups);
    InsertPhase(b, f, order);
    tx, trace := InsertIdentities(b, f, db, items, order);
    ghost var ids := IdsOf(order);
    AllInserted(b, f, order, trace);
    var rows := ReadIdentities(tx, order);
    var matched;
    matched, slots := SplitGroups(b, tx, items, rows, order);
    MatchedGroups(b, tx, matched, order);
    var states := ReadBatchAttempts(items, tx, matched);
    WaitingHaveGroups(b, order);
    active, slots := DecideGroups(b, items, limit, tx, rows, states, matched, slots, ids);
    active := SortActive(b, ids, active);
    FillStart(b, slots, ids, IdsOf(active));
  }

  lemma AllInserted(b: Batch, f: Identity -> seq<Statement>, order: seq<Group>, trace: seq<Statement>)
    requires Grouped(b, order) && Owes(f, 0, IdsOf(order), InsertOf(b, order)) && Reached(trace, f, 1, {})
    ensures forall k | 0 <= k < |order| :: Inserted(b, ExecAll(b.db, trace), order[k].id)
    ensures forall id | id in IdsOf(order) :: Inserted(b, ExecAll(b.db, trace), id) && id in ExecAll(b.db, trace).identities
  {
    hide *;
    forall k | 0 <= k < |order|
      ensures Inserted(b, ExecAll(b.db, trace), order[k].id) && order[k].id in ExecAll(b.db, trace).identities
    {
      GroupAt(b, order, k);
      InsertedRows(b, f, order, trace, order[k]);
      StoredIs(b, ExecAll(b.db, trace), order[k].id);
    }
    forall id | id in IdsOf(order)
      ensures Inserted(b, ExecAll(b.db, trace), id) && id in ExecAll(b.db, trace).identities
    {
      var k :| 0 <= k < |order| && IdsOf(order)[k] == id;
    }
  }

  lemma MatchedGroups(b: Batch, tx: Tables, groups: seq<Group>, order: seq<Group>)
    requires Matched(b, groups, IdsOf(order)) && forall id | id in IdsOf(order) :: Inserted(b, tx, id)
    ensures Distinct(IdsOf(groups))
    ensures forall k | 0 <= k < |groups| ::
              && groups[k].id in IdsOf(order) && Inserted(b, tx, groups[k].id)
              && |groups[k].matching| > 0 && groups[k].matching[0] < |b.items|
  {
    forall k | 0 <= k < |groups|
      ensures groups[k].id in IdsOf(order) && |groups[k].matching| > 0 && groups[k].matching[0] < |b.items|
    {
      MatchedAt(b, groups, IdsOf(order), k);
      b.MatchingSpec(groups[k].id);
      assert groups[k].matching[0] in b.Matching(groups[k].id);
    }
  }

  /** The group that an active group's increment was made for is that group itself. */
  lemma ReturnedFor(b: Batch, active: seq<Group>, outcomes: seq<Outcome>, chosen: seq<Group>, k: nat) returns (j: nat)
    requires |outcomes| == |active| && Distinct(IdsOf(active)) && k < |active| && Wants(1, Classify(outcomes[k]).0)
    requires forall j | 0 <= j < |active| && Wants(1, Classify(outcomes[j]).0) :: active[j].id in IdsOf(chosen)
    requires forall g | g in chosen :: exists j | 0 <= j < |active| :: g == active[j] && Wants(1, Classify(outcomes[j]).0)
    ensures j < |chosen| && chosen[j] == active[k]
  {
    hide Wants;
    assert active[k].id in IdsOf(chosen);
    j :| 0 <= j < |chosen| && IdsOf(chosen)[j] == active[k].id;
    assert chosen[j] in chosen;
    var x :| 0 <= x < |active| && chosen[j] == active[x];
    assert IdsOf(active)[x] == IdsOf(active)[k];
  }

  lemma IncrementsRead(b: Batch, f: Identity -> seq<Statement>, trace: seq<Statement>, active: seq<Group>,
                       outcomes: seq<Outcome>, chosen: seq<Group>, j: nat)
    requires Follows(b, f) && WellTargeted(f) && b.limit > 0 && Reached(trace, f, 2, {})
    requires InBrokerOrder(b, active) && Answered(b, active, outcomes) && j < |chosen|
    requires exists x | 0 <= x < |active| :: chosen[j] == active[x] && Wants(1, Classify(outcomes[x]).0)
    ensures |chosen[j].matching| > 0 && chosen[j].matching[0] < |b.items|
    ensures ReadAttempt(ExecAll(b.db, trace), CycleAt(b.items, chosen[j])).Some?
    ensures ReadAttempt(ExecAll(b.db, trace), CycleAt(b.items, chosen[j])).value.attempts == chosen[j].state.attempts + 1
  {
    hide *;
    AnsweredLength(b, active, outcomes);
    var x :| 0 <= x < |active| && chosen[j] == active[x] && Wants(1, Classify(outcomes[x]).0);
    ActiveAt(b, active, outcomes, x);
    WantsIncrement(outcomes[x]);
    BumpedCounter(b, f, trace, active[x]);
  }

  lemma WantsIncrement(o: Outcome)
    ensures Wants(1, Classify(o).0) <==> !Classify(o).0.KindDefer?
  {
  }

  /** Gives every delivery of an active group its committed outcome, from the returned counters. */
  method FillFromReturned(ghost b: Batch, items: seq<BatchItem>, limit: nat, active: seq<Group>, outcomes: seq<Outcome>,
                          attempts: map<Identity, nat>, slots: Slots)
    returns (slots': Slots)
    requires b.items == items && b.limit == limit > 0 && OneGeneration(items)
    requires InBrokerOrder(b, active) && Answered(b, active, outcomes) && |outcomes| == |active|
    requires forall k | 0 <= k < |active| && !Classify(outcomes[k]).0.KindDefer? ::
               active[k].id in attempts && attempts[active[k].id] == active[k].state.attempts + 1
    requires SlotsFilled(b, slots, IdsOf(active)[..0])
    ensures |slots'| == |items| && forall i | 0 <= i < |items| :: slots'[i] == Some(b.OutcomeAt(i))
  {
    hide *;
    slots' := slots;
    ghost var ids := IdsOf(active);
    for k := 0 to |active|
      invariant SlotsFilled(b, slots', ids[..k])
    {
      ActiveAt(b, active, outcomes, k);
      var after := if Classify(outcomes[k]).0.KindDefer? then 0 else attempts[active[k].id];
      slots' := FillOne(b, items, limit, active[k], outcomes[k], after, ids[..k], slots');
      assert ids[..k + 1] == ids[..k] + [active[k].id];
    }
    assert ids[..|active|] == ids;
    AllWaiting(b, active);
    FillEnd(b, slots', ids);
    FilledLength(b, slots', ids);
  }

  /** Increments, outcomes, completions and terminal marks, one statement per table. */
  method SettleInSets(ghost b: Batch, ghost f: Identity -> seq<Statement>, items: seq<BatchItem>, limit: nat, now: Time,
                      active: seq<Group>, outcomes: seq<Outcome>, tx: Tables, ghost trace: seq<Statement>, slots: Slots)
    returns (tx': Tables, ghost trace': seq<Statement>, slots': Slots, complete: bool)
    requires b.items == items && b.limit == limit > 0 && b.now == now && OneGeneration(items)
    requires Follows(b, f) && WellTargeted(f)
    requires tx == ExecAll(b.db, trace) && Reached(trace, f, 1, {})
    requires InBrokerOrder(b, active) && Answered(b, active, outcomes) && SlotsFilled(b, slots, IdsOf(active)[..0])
    ensures complete
    ensures tx' == ExecAll(b.db, trace') && Reached(trace', f, 4, {})
    ensures |slots'| == |items| && forall i | 0 <= i < |items| :: slots'[i] == Some(b.OutcomeAt(i))
  {
    hide *;
    BrokerOrderDistinct(b, active);
    AnsweredLength(b, active, outcomes);
    var consuming := SelectGroups(active, outcomes, 1);
    ChosenServe(b, f, 1, active, outcomes, consuming);
    Servable(b, f, 1, consuming);
    var order := LegacyFirst(items, consuming);
    ReorderedServe(b, f, 1, consuming, order);
    tx', trace' := ApplyRows(b, f, 1, items, now, order, tx, trace);
    forall j | 0 <= j < |consuming|
      ensures ReadAttempt(tx', CycleAt(items, consuming[j])).Some?
      ensures ReadAttempt(tx', CycleAt(items, consuming[j])).value.attempts == consuming[j].state.attempts + 1
    {
      assert consuming[j] in consuming;
      IncrementsRead(b, f, trace', active, outcomes, consuming, j);
    }
    var attempts := ReturnedAttempts(items, tx', consuming);
    complete := |attempts| == |consuming|;
    forall k | 0 <= k < |active| && !Classify(outcomes[k]).0.KindDefer?
      ensures active[k].id in attempts && attempts[active[k].id] == active[k].state.attempts + 1
    {
      WantsIncrement(outcomes[k]);
      var j := ReturnedFor(b, active, outcomes, consuming, k);
    }
    slots' := FillFromReturned(b, items, limit, active, outcomes, attempts, slots);
    var successful := SelectGroups(active, outcomes, 2);
    ChosenServe(b, f, 2, active, outcomes, successful);
    tx', trace' := ApplyRows(b, f, 2, items, now, successful, tx', trace');
    var permanent := SelectGroups(active, outcomes, 3);
    ChosenServe(b, f, 3, active, outcomes, permanent);
    Servable(b, f, 3, permanent);
    order := LegacyFirst(items, permanent);
    ReorderedServe(b, f, 3, permanent, order);
    tx', trace' := ApplyRows(b, f, 3, items, now, order, tx', trace');
  }

  /** The whole batch call: the same tables and report as the other backend. */
  method ProcessBatchInSets(db: Tables, items: seq<BatchItem>, limit: nat, handler: BatchHandler, now: Time)
    returns (tx: Tables, report: BatchReport)
    ensures (tx, report) == RunBatch(db, items, limit, handler, now)
  {
    if items == [] {
      return db, Rejected(EmptyBatch);
    }
    if limit == 0 {
      return db, Rejected(BadLimit);
    }
    var oneConsumer := CheckConsumers(items);
    ghost var b := Eventually(db, items, limit, handler, now);
    EventuallyFields(db, items, limit, handler, now);
    var ok, groups := PrepareGroups(b, items);
    if !oneConsumer || !ok {
      return db, Rejected(MixedBatch);
    }
    tx, report := TransactInSets(b, db, items, limit, handler, now, groups);
  }

  method TransactInSets(ghost b: Batch, db: Tables, items: seq<BatchItem>, limit: nat, handler: BatchHandler, now: Time,
                        groups: seq<Group>)
    returns (tx: Tables, report: BatchReport)
    requires items != [] && limit > 0 && SameConsumer(items) && OneGeneration(items)
    requires b == Eventually(db, items, limit, handler, now) && Grouped(b, groups)
    ensures (tx, report) == RunBatch(db, items, limit, handler, now)
  {
    hide *;
    RunBatchIs(db, items, limit, handler, now);
    ghost var f := (id: Identity) => LeadStatements(b, id);
    FollowsIs(b, f);
    FollowsWell(b, f);
    ghost var trace;
    var active, slots;
    tx, trace, active, slots := AdmitInSets(b, f, db, items, limit, groups);
    CommittingIs(b);
    if active == [] {
      NobodyWaits(b, f, trace, active, slots);
      var outcomes := Unwrap(slots);
      ReportIs(b, outcomes);
      tx := FinishBatch(b, f, outcomes, now, tx, trace);
      return tx, Committed(outcomes, []);
    }
    var handled, expected := HandlerView(b, items, active);
    var reply := handler(handled);
    if reply.err.Some? {
      return db, Rejected(if reply.items != [] || IsFailClosed(reply.err.value) then InvalidResult
                          else TopLevel(reply.err.value));
    }
    var ok, ordered := ValidateResult(expected, reply.items);
    if !ok {
      return db, Rejected(InvalidResult);
    }
    AnsweredBy(b, active, expected, reply.items, ordered);
    var complete;
    tx, trace, slots, complete := SettleInSets(b, f, items, limit, now, active, ordered, tx, trace, slots);
    var outcomes := Unwrap(slots);
    ReportIs(b, outcomes);
    tx := FinishBatch(b, f, outcomes, now, tx, trace);
    report := Committed(outcomes, handled);
  }
}
