/** The SQLite backend's batch transaction: one identity insert per group,
    admission, one handler call, bulk counters, outcomes and markers. */
module InboxSqliteBatch {
  import opened InboxTables
  import opened BatchRuntime
  import opened InboxAttempt
  import opened InboxBatch
  import opened InboxPhases
  import opened InboxGroups
  import opened Sorting

  ghost predicate Follows(b: Batch, f: Identity -> seq<Statement>) {
    forall id :: f(id) == LeadStatements(b, id)
  }

  // ---------------------------------------------------------------- inserting identities

  /** The first delivery of an identity that is not stored yet becomes its lead. */
  lemma FreshLead(b: Batch, g: Group)
    requires IsGroup(b, g) && g.id !in b.db.identities
    ensures b.Lead(g.id).Some? && b.items[b.Lead(g.id).value].fp == b.items[g.entries[0]].fp == b.Stored(g.id)
  {
    b.PositionsSpec(g.id, |b.items|);
    assert g.entries[0] in b.Positions(g.id);
    b.MatchingSpec(g.id);
    assert b.Matches(g.entries[0]);
    assert g.entries[0] in b.Matching(g.id);
  }

  lemma InsertPart(b: Batch, g: Group)
    requires IsGroup(b, g) && b.limit > 0
    ensures InPhase(LeadStatements(b, g.id), 0)
            == if g.id in b.db.identities then [] else [InsertIdentity(g.id, b.items[g.entries[0]].fp)]
  {
    PartOfLead(b, g.id, 0);
    if g.id !in b.db.identities {
      FreshLead(b, g);
    }
  }

  lemma LeadHasGroup(b: Batch, gs: seq<Group>, id: Identity)
    requires Grouped(b, gs)
    ensures b.Lead(id).Some? ==> id in IdsOf(gs)
  {
    if b.Lead(id).Some? {
      assert b.items[b.Lead(id).value].key.id in IdsOf(gs);
    }
  }

  lemma LeadOrdered(b: Batch, id: Identity)
    ensures PhaseOrdered(LeadStatements(b, id))
  {
    if b.Lead(id).Some? {
      var item := b.items[b.Lead(id).value];
      StatementsOrdered(b.db, item.key, item.fp, b.limit, b.OutcomeOf(id), b.now);
    }
  }

  /** What one phase owes each listed identity; it owes the others nothing. */
  ghost predicate Owes(f: Identity -> seq<Statement>, k: nat, ids: seq<Identity>, part: Identity -> seq<Statement>) {
    && (forall id :: PhaseOrdered(f(id)))
    && (forall id :: InPhase(f(id), k) == if id in ids then part(id) else [])
  }

  ghost function InsertOf(b: Batch, gs: seq<Group>): Identity -> seq<Statement> {
    (id: Identity) =>
      if id in b.db.identities || b.Positions(id) == [] then []
      else [InsertIdentity(id, b.items[b.Positions(id)[0]].fp)]
  }

  lemma InsertPhase(b: Batch, f: Identity -> seq<Statement>, gs: seq<Group>)
    requires b.limit > 0 && Grouped(b, gs) && Follows(b, f)
    ensures Owes(f, 0, IdsOf(gs), InsertOf(b, gs))
  {
    forall id ensures PhaseOrdered(f(id)) {
      LeadOrdered(b, id);
    }
    forall id ensures InPhase(f(id), 0) == if id in IdsOf(gs) then InsertOf(b, gs)(id) else [] {
      LeadHasGroup(b, gs, id);
      PartOfLead(b, id, 0);
      if id in IdsOf(gs) {
        var k :| 0 <= k < |gs| && IdsOf(gs)[k] == id;
        assert IsGroup(b, gs[k]);
        InsertPart(b, gs[k]);
      }
    }
  }

  lemma GroupAt(b: Batch, gs: seq<Group>, k: nat)
    requires Grouped(b, gs) && k < |gs|
    ensures IsGroup(b, gs[k]) && gs[k].id in IdsOf(gs) && gs[k].id !in IdsOf(gs)[..k]
  {
  }

  lemma OwesAt(f: Identity -> seq<Statement>, k: nat, ids: seq<Identity>, part: Identity -> seq<Statement>, id: Identity)
    requires Owes(f, k, ids, part)
    ensures InPhase(f(id), k) == if id in ids then part(id) else []
  {
  }

  lemma PhaseDone(trace: seq<Statement>, f: Identity -> seq<Statement>, k: nat, ids: seq<Identity>,
                  part: Identity -> seq<Statement>, done: set<Identity>)
    requires Reached(trace, f, k, done) && Owes(f, k, ids, part)
    requires forall id :: id in done <==> id in ids[..|ids|]
    ensures Reached(trace, f, k + 1, {})
  {
    assert ids[..|ids|] == ids;
    ReachedNext(trace, f, k, done);
  }

  lemma TraceStart(from: Tables, f: Identity -> seq<Statement>)
    ensures from == ExecAll(from, []) && Reached([], f, 0, {})
  {
    ReachedStart(f);
  }

  /** INSERT ... ON CONFLICT DO NOTHING for the first entry of every group. */
  method InsertIdentities(ghost b: Batch, ghost f: Identity -> seq<Statement>,
                          from: Tables, items: seq<BatchItem>, gs: seq<Group>)
    returns (tx: Tables, ghost trace: seq<Statement>)
    requires b.db == from && b.items == items
    requires Grouped(b, gs) && Owes(f, 0, IdsOf(gs), InsertOf(b, gs))
    ensures tx == ExecAll(from, trace) && Reached(trace, f, 1, {})
  {
    hide *;
    tx, trace := from, [];
    ghost var done: set<Identity> := {};
    TraceStart(from, f);
    for k := 0 to |gs|
      invariant tx == ExecAll(from, trace) && Reached(trace, f, 0, done)
      invariant forall id :: id in done <==> id in IdsOf(gs)[..k]
    {
      GroupAt(b, gs, k);
      OwesAt(f, 0, IdsOf(gs), InsertOf(b, gs), gs[k].id);
      TakeStep(IdsOf(gs), k);
      tx, trace := InsertOne(b, f, from, items, gs, gs[k], tx, trace, done);
      done := done + {gs[k].id};
    }
    PhaseDone(trace, f, 0, IdsOf(gs), InsertOf(b, gs), done);
  }

  method InsertOne(ghost b: Batch, ghost f: Identity -> seq<Statement>, ghost from: Tables, items: seq<BatchItem>,
                   ghost gs: seq<Group>, g: Group, tx: Tables, ghost trace: seq<Statement>, ghost done: set<Identity>)
    returns (tx': Tables, ghost trace': seq<Statement>)
    requires b.db == from && b.items == items && IsGroup(b, g)
    requires InPhase(f(g.id), 0) == InsertOf(b, gs)(g.id)
    requires tx == ExecAll(from, trace) && Reached(trace, f, 0, done) && g.id !in done
    ensures tx' == ExecAll(from, trace') && Reached(trace', f, 0, done + {g.id})
  {
    var s := InsertIdentity(g.id, items[g.entries[0]].fp);
    AllPhases(f(g.id));
    RowsUntouched(from, trace, g.id);
    assert Row(from.identities, g.id) == Row(tx.identities, g.id);
    tx' := Exec(tx, s);
    if g.id in from.identities {
      trace' := trace;
      assert tx.identities[g.id := tx.identities[g.id]] == tx.identities;
      ReachedSkip(trace, f, 0, done, g.id);
    } else {
      trace' := trace + [s];
      ExecAllAppend(from, trace, [s]);
      assert ExecAll(tx, [s]) == Exec(tx, s);
      ReachedAdd(trace, f, 0, done, s);
    }
  }

  // ---------------------------------------------------------------- admission

  /** What the transaction shows of an identity between the inserts and the handler call. */
  ghost predicate Inserted(b: Batch, tx: Tables, id: Identity) {
    && id in tx.identities
    && tx.identities[id] == IdentityRow(b.Stored(id), if id in b.db.identities then b.db.identities[id].completedAt else None)
    && (forall c: Cycle | c.id == id :: ReadAttempt(tx, c) == ReadAttempt(b.db, c))
  }

  lemma InsertedRows(b: Batch, f: Identity -> seq<Statement>, gs: seq<Group>, trace: seq<Statement>, g: Group)
    requires Reached(trace, f, 1, {}) && Owes(f, 0, IdsOf(gs), InsertOf(b, gs))
    requires g.id in IdsOf(gs) && IsGroup(b, g)
    ensures Inserted(b, ExecAll(b.db, trace), g.id)
  {
    var tx := ExecAll(b.db, trace);
    var ss := InsertOf(b, gs)(g.id);
    AllPhases(f(g.id));
    PhaseSplit(f(g.id), 0);
    assert Project(trace, g.id) == ss;
    RowsSoFar(b.db, trace, g.id);
    var own := ExecAll(b.db, ss);
    InsertedAlone(b, gs, g);
    assert Row(tx.identities, g.id) == Row(own.identities, g.id);
    forall c: Cycle | c.id == g.id ensures ReadAttempt(tx, c) == ReadAttempt(b.db, c) {
      ReadLocal(tx, own, c);
    }
  }

  lemma InsertedAlone(b: Batch, gs: seq<Group>, g: Group)
    requires IsGroup(b, g)
    ensures Inserted(b, ExecAll(b.db, InsertOf(b, gs)(g.id)), g.id)
  {
    var ss := InsertOf(b, gs)(g.id);
    if g.id in b.db.identities {
      assert ExecAll(b.db, ss) == b.db;
    } else {
      assert ss == [InsertIdentity(g.id, b.items[g.entries[0]].fp)];
      assert ExecAll(b.db, ss) == Exec(b.db, ss[0]);
    }
  }

  // Outcome slots: None is a position that has no decision yet.
  type Slots = seq<Option<ItemOutcome>>

  function ConflictOutcome(item: BatchItem): ItemOutcome {
    ItemOutcome(item.key, item.fp, DLQ, 0, false, 0, IdentityConflict, Some(FingerprintConflict))
  }

  /** Splits a group's entries into those that match the stored digest and conflicts. */
  method SplitEntries(items: seq<BatchItem>, entries: seq<nat>, stored: Digest, slots: Slots)
    returns (matching: seq<nat>, slots': Slots)
    requires |slots| == |items| && Increasing(entries) && forall k | 0 <= k < |entries| :: entries[k] < |items|
    ensures |slots'| == |items| && Increasing(matching)
    ensures forall i :: i in matching <==> i in entries && items[i].fp == stored
    ensures forall i | 0 <= i < |items| ::
              slots'[i] == if i in entries && items[i].fp != stored then Some(ConflictOutcome(items[i])) else slots[i]
  {
    matching, slots' := [], slots;
    for k := 0 to |entries|
      invariant |slots'| == |items| && Increasing(matching)
      invariant forall i :: i in matching <==> i in entries[..k] && items[i].fp == stored
      invariant forall i | 0 <= i < |items| ::
                  slots'[i] == if i in entries[..k] && items[i].fp != stored then Some(ConflictOutcome(items[i])) else slots[i]
    {
      var i := entries[k];
      TakeStep(entries, k);
      if items[i].fp == stored {
        IncreasingSnoc(entries, k, matching);
        matching := matching + [i];
      } else {
        slots' := slots'[i := Some(ConflictOutcome(items[i]))];
      }
    }
    assert entries[..|entries|] == entries;
  }

  lemma IncreasingSnoc(entries: seq<nat>, k: nat, picked: seq<nat>)
    requires Increasing(entries) && k < |entries| && Increasing(picked)
    requires forall i :: i in picked ==> i in entries[..k]
    ensures Increasing(picked + [entries[k]])
  {
    forall j | 0 <= j < |picked| ensures picked[j] < entries[k] {
      assert picked[j] in entries[..k];
    }
  }

  /** Gives every matching delivery the group's outcome under its own key; all but the first are duplicates. */
  method AssignOutcome(items: seq<BatchItem>, matching: seq<nat>, outcome: ItemOutcome, slots: Slots) returns (slots': Slots)
    requires |slots| == |items| && Increasing(matching) && forall k | 0 <= k < |matching| :: matching[k] < |items|
    ensures |slots'| == |items|
    ensures forall i | 0 <= i < |items| ::
              slots'[i] == if i in matching then Some(Copied(outcome, items[i], i != matching[0])) else slots[i]
  {
    slots' := slots;
    for k := 0 to |matching|
      invariant |slots'| == |items|
      invariant forall i | 0 <= i < |items| ::
                  slots'[i] == if i in matching[..k] then Some(Copied(outcome, items[i], i != matching[0])) else slots[i]
    {
      var i := matching[k];
      TakeStep(matching, k);
      slots' := slots'[i := Some(outcome.(key := items[i].key, duplicate := k > 0 || outcome.duplicate))];
    }
    assert matching[..|matching|] == matching;
  }

  function Copied(outcome: ItemOutcome, item: BatchItem, follower: bool): ItemOutcome {
    outcome.(key := item.key, duplicate := follower || outcome.duplicate)
  }

  lemma MatchingIs(b: Batch, g: Group, matching: seq<nat>)
    requires IsGroup(b, g) && Increasing(matching)
    requires forall i: nat :: i in matching <==> i in g.entries && i < |b.items| && b.items[i].fp == b.Stored(g.id)
    ensures matching == b.Matching(g.id)
  {
    b.PositionsSpec(g.id, |b.items|);
    b.MatchingSpec(g.id);
    IncreasingUnique(matching, b.Matching(g.id));
  }

  /** The decision for a follower is its lead's decision under its own key, marked as a duplicate. */
  lemma FollowerOutcome(b: Batch, id: Identity, i: nat)
    requires OneGeneration(b.items) && b.Lead(id).Some? && i in b.Matching(id) && i < |b.items|
    ensures b.OutcomeAt(i) == Copied(b.OutcomeAt(b.Lead(id).value), b.items[i], i != b.Lead(id).value)
    ensures b.items[i] == b.items[b.Lead(id).value]
  {
    b.MatchingSpec(id);
    var lead := b.Lead(id).value;
    hide Batch.Lead, Batch.Stored, Batch.Matching, ReplyTo, FromReply;
    if i != lead {
      assert b.items[i].key == b.items[lead].key;
    }
    FromReplyCopied(b.items[i], ReplyTo(b.db, b.items[i].key, b.items[i].fp, b.limit, b.OutcomeOf(id)), b.limit);
  }

  lemma FromReplyCopied(item: BatchItem, reply: Reply, limit: nat)
    ensures FromReply(item, reply, limit, true) == Copied(FromReply(item, reply, limit, false), item, true)
    ensures FromReply(item, reply, limit, false) == Copied(FromReply(item, reply, limit, false), item, false)
  {
  }

  function StateAt(db: Tables, item: BatchItem): AttemptState {
    var state := ReadAttempt(db, CycleOf(item.key, item.fp));
    if state.Some? then state.value else NO_STATE
  }

  /** The broker decision for a lead whose handler is not called. */
  function SettledOutcome(item: BatchItem, completed: bool, state: AttemptState): ItemOutcome {
    if completed then ItemOutcome(item.key, item.fp, ACK, state.attempts, true, 0, NoFailure, None)
    else
      var permanent := state.terminal || state.kind == Some(Permanent);
      ItemOutcome(item.key, item.fp, DLQ, state.attempts, false, 0,
                  ClosedAs(if permanent then Permanent else AttemptsExhausted),
                  Some(if permanent then AttemptTerminal else AttemptsSpent))
  }

  predicate ClosedState(state: AttemptState, limit: nat) {
    state.terminal || state.attempts >= limit || state.kind != None
  }

  /** The batch's admission test agrees with the single-delivery decision. */
  lemma AdmissionIsDecision(b: Batch, lead: nat)
    requires lead < |b.items| && b.limit > 0 && b.IsLead(lead)
    ensures var item := b.items[lead]; var state := StateAt(b.db, item); var completed := Completed(b.db, item.key.id);
            && (b.Decision(lead).Invoke? <==> !completed && !ClosedState(state, b.limit))
            && (b.Decision(lead).Invoke? ==> b.Decision(lead).attempt == state.attempts + 1)
            && (!b.Decision(lead).Invoke? ==> b.OutcomeAt(lead) == SettledOutcome(item, completed, state))
  {
    hide Batch.Lead, Batch.Stored;
    var item := b.items[lead];
    var state := StateAt(b.db, item);
    assert state.kind.Some? ==> state.kind.value.Permanent? || state.kind.value.AttemptsExhausted?;
    StoredByRow(b, lead);
  }

  lemma StoredByRow(b: Batch, i: nat)
    requires i < |b.items| && b.Matches(i)
    ensures b.items[i].key.id in b.db.identities ==> b.db.identities[b.items[i].key.id].fp == b.items[i].fp
  {
  }

  ghost predicate Admitted(b: Batch, g: Group) {
    && b.Lead(g.id).Some? && b.IsActive(b.Lead(g.id).value)
    && g.matching == b.Matching(g.id) && g.first == b.Lead(g.id).value
    && g.state == StateAt(b.db, b.items[g.first])
  }

  ghost predicate Waiting(b: Batch, id: Identity) {
    b.Lead(id).Some? && b.IsActive(b.Lead(id).value)
  }

  /** Slots after one group has been looked at. */
  ghost predicate Looked(b: Batch, id: Identity, slots: Slots, slots': Slots) {
    && |slots| == |slots'| == |b.items|
    && forall i | 0 <= i < |b.items| ::
         slots'[i] == if b.items[i].key.id == id && !(b.Matches(i) && Waiting(b, id)) then Some(b.OutcomeAt(i)) else slots[i]
  }

  lemma ConflictsLooked(b: Batch, g: Group, matching: seq<nat>, slots: Slots, mid: Slots)
    requires IsGroup(b, g) && matching == b.Matching(g.id) && |slots| == |mid| == |b.items|
    requires forall i | 0 <= i < |b.items| ::
               mid[i] == if i in g.entries && b.items[i].fp != b.Stored(g.id) then Some(ConflictOutcome(b.items[i])) else slots[i]
    ensures Waiting(b, g.id) || matching == [] ==> Looked(b, g.id, slots, mid)
  {
    b.PositionsSpec(g.id, |b.items|);
    b.MatchingSpec(g.id);
    forall i | 0 <= i < |b.items| && b.items[i].key.id == g.id && !b.Matches(i)
      ensures b.OutcomeAt(i) == ConflictOutcome(b.items[i]) {
    }
  }

  lemma SettledLooked(b: Batch, g: Group, slots: Slots, mid: Slots, after: Slots)
    requires IsGroup(b, g) && b.Lead(g.id).Some? && !Waiting(b, g.id) && OneGeneration(b.items)
    requires |slots| == |mid| == |after| == |b.items|
    requires forall i | 0 <= i < |b.items| ::
               mid[i] == if i in g.entries && b.items[i].fp != b.Stored(g.id) then Some(ConflictOutcome(b.items[i])) else slots[i]
    requires forall i | 0 <= i < |b.items| ::
               after[i] == if i in b.Matching(g.id)
                           then Some(Copied(b.OutcomeAt(b.Lead(g.id).value), b.items[i], i != b.Lead(g.id).value)) else mid[i]
    ensures Looked(b, g.id, slots, after)
  {
    b.PositionsSpec(g.id, |b.items|);
    b.MatchingSpec(g.id);
    forall i | 0 <= i < |b.items| && b.items[i].key.id == g.id ensures after[i] == Some(b.OutcomeAt(i)) {
      if b.Matches(i) {
        FollowerOutcome(b, g.id, i);
      } else {
        assert b.OutcomeAt(i) == ConflictOutcome(b.items[i]);
      }
    }
  }

  /** Admission of one group: conflicts, completed and closed keys are settled, the rest await the handler. */
  method AdmitGroup(ghost b: Batch, items: seq<BatchItem>, limit: nat, tx: Tables, g: Group, slots: Slots)
    returns (g': Group, slots': Slots, active: bool)
    requires b.items == items && b.limit == limit > 0 && IsGroup(b, g) && Inserted(b, tx, g.id)
    requires OneGeneration(items) && |slots| == |items|
    ensures Looked(b, g.id, slots, slots') && g'.id == g.id
    ensures active <==> Waiting(b, g.id)
    ensures active ==> Admitted(b, g')
  {
    b.PositionsSpec(g.id, |items|);
    var stored := tx.identities[g.id];
    var matching, mid := SplitEntries(items, g.entries, stored.fp, slots);
    MatchingIs(b, g, matching);
    g', slots', active := g.(matching := matching), mid, false;
    ConflictsLooked(b, g, matching, slots, mid);
    if |matching| == 0 {
      return;
    }
    var item := items[matching[0]];
    g' := g'.(first := matching[0], state := StateAt(tx, item));
    AdmissionIsDecision(b, matching[0]);
    assert StateAt(tx, item) == StateAt(b.db, item);
    if stored.completedAt.Some? || ClosedState(g'.state, limit) {
      slots' := AssignOutcome(items, matching, SettledOutcome(item, stored.completedAt.Some?, g'.state), mid);
      SettledLooked(b, g, slots, mid, slots');
      return;
    }
    active := true;
  }

  /** A position's slot once its group has been looked at. */
  ghost function SlotAfter(b: Batch, i: nat): Option<ItemOutcome>
    requires i < |b.items|
  {
    if b.Matches(i) && Waiting(b, b.items[i].key.id) then None else Some(b.OutcomeAt(i))
  }

  ghost predicate SlotsAfter(b: Batch, slots: Slots, looked: seq<Identity>) {
    && |slots| == |b.items|
    && forall i | 0 <= i < |b.items| :: slots[i] == if b.items[i].key.id in looked then SlotAfter(b, i) else None
  }

  /** Exactly the waiting identities among the given ones, each admitted once. */
  ghost predicate ActiveAmong(b: Batch, active: seq<Group>, ids: seq<Identity>) {
    && (forall k | 0 <= k < |active| :: Admitted(b, active[k]))
    && Distinct(IdsOf(active))
    && (forall id :: id in IdsOf(active) <==> id in ids && Waiting(b, id))
  }

  lemma LookedStep(b: Batch, gs: seq<Group>, k: nat, slots: Slots, slots': Slots)
    requires k < |gs| && SlotsAfter(b, slots, IdsOf(gs)[..k]) && Looked(b, gs[k].id, slots, slots')
    requires gs[k].id !in IdsOf(gs)[..k]
    ensures SlotsAfter(b, slots', IdsOf(gs)[..k + 1])
  {
    TakeStep(IdsOf(gs), k);
  }

  lemma ActiveStep(b: Batch, gs: seq<Group>, k: nat, active: seq<Group>, g: Group, add: bool)
    requires k < |gs| && ActiveAmong(b, active, IdsOf(gs)[..k]) && gs[k].id !in IdsOf(gs)[..k]
    requires g.id == gs[k].id && (add <==> Waiting(b, g.id)) && (add ==> Admitted(b, g))
    ensures ActiveAmong(b, if add then active + [g] else active, IdsOf(gs)[..k + 1])
  {
    hide Waiting, Admitted;
    TakeStep(IdsOf(gs), k);
    if add {
      var next := active + [g];
      assert IdsOf(next) == IdsOf(active) + [g.id];
      DistinctSnoc(IdsOf(active), g.id);
    }
  }

  lemma DistinctSnoc<T>(xs: seq<T>, x: T)
    requires Distinct(xs) && x !in xs
    ensures Distinct(xs + [x])
    ensures forall y :: y in xs + [x] <==> y in xs || y == x
  {
  }

  lemma AdmissionStart(b: Batch, slots: Slots, ids: seq<Identity>)
    requires |slots| == |b.items| && forall i | 0 <= i < |slots| :: slots[i] == None
    ensures SlotsAfter(b, slots, ids[..0]) && ActiveAmong(b, [], ids[..0])
  {
  }

  /** Reads every group's identity and attempt row and decides which groups await the handler. */
  method PrepareIdentities(ghost b: Batch, ghost f: Identity -> seq<Statement>, items: seq<BatchItem>, limit: nat,
                           tx: Tables, ghost trace: seq<Statement>, order: seq<Group>)
    returns (active: seq<Group>, slots: Slots)
    requires b.items == items && b.limit == limit > 0 && OneGeneration(items)
    requires Grouped(b, order) && Owes(f, 0, IdsOf(order), InsertOf(b, order))
    requires tx == ExecAll(b.db, trace) && Reached(trace, f, 1, {})
    ensures SlotsAfter(b, slots, IdsOf(order)) && ActiveAmong(b, active, IdsOf(order))
  {
    hide *;
    slots := seq(|items|, _ => None);
    active := [];
    AdmissionStart(b, slots, IdsOf(order));
    for k := 0 to |order|
      invariant SlotsAfter(b, slots, IdsOf(order)[..k]) && ActiveAmong(b, active, IdsOf(order)[..k])
      invariant |slots| == |items|
    {
      GroupAt(b, order, k);
      InsertedRows(b, f, order, trace, order[k]);
      var g, next, add := AdmitGroup(b, items, limit, tx, order[k], slots);
      LookedStep(b, order, k, slots, next);
      LookedLength(b, order[k].id, slots, next);
      ActiveStep(b, order, k, active, g, add);
      slots := next;
      if add {
        active := active + [g];
      }
    }
    assert IdsOf(order)[..|order|] == IdsOf(order);
  }

  lemma LookedLength(b: Batch, id: Identity, slots: Slots, slots': Slots)
    requires Looked(b, id, slots, slots')
    ensures |slots'| == |b.items|
  {
  }

  // ---------------------------------------------------------------- the handler's view

  function FirstsOf(gs: seq<Group>): (r: seq<nat>)
    ensures |r| == |gs| && forall k | 0 <= k < |gs| :: r[k] == gs[k].first
  {
    seq(|gs|, k requires 0 <= k < |gs| => gs[k].first)
  }

  /** Every identity that awaits the handler, once, in broker order of its lead. */
  ghost predicate InBrokerOrder(b: Batch, active: seq<Group>) {
    && (forall k | 0 <= k < |active| :: Admitted(b, active[k]))
    && Distinct(IdsOf(active))
    && (forall id :: id in IdsOf(active) <==> Waiting(b, id))
    && FirstsOf(active) == b.Active()
  }

  lemma SortedFirsts(b: Batch, active: seq<Group>)
    requires forall k | 0 <= k < |active| :: Admitted(b, active[k])
    requires Distinct(IdsOf(active)) && SortedBy(active, FirstBefore)
    ensures Increasing(FirstsOf(active))
  {
    forall j, k | 0 <= j < k < |active| ensures active[j].first < active[k].first {
      assert Admitted(b, active[j]) && Admitted(b, active[k]);
      assert IdsOf(active)[j] != IdsOf(active)[k];
      assert FirstBefore(active[j], active[k]);
    }
  }

  lemma ActiveFirsts(b: Batch, active: seq<Group>)
    requires forall k | 0 <= k < |active| :: Admitted(b, active[k])
    requires forall id :: id in IdsOf(active) <==> Waiting(b, id)
    requires Increasing(FirstsOf(active))
    ensures FirstsOf(active) == b.Active()
  {
    b.ActiveSpec();
    forall x ensures x in FirstsOf(active) <==> x in b.Active() {
      if x in FirstsOf(active) {
        var k :| 0 <= k < |active| && FirstsOf(active)[k] == x;
        assert Admitted(b, active[k]);
      }
      if x in b.Active() {
        var id := b.items[x].key.id;
        assert b.Lead(id) == Some(x) && Waiting(b, id);
        var k :| 0 <= k < |active| && IdsOf(active)[k] == id;
        assert Admitted(b, active[k]) && FirstsOf(active)[k] == x;
      }
    }
    IncreasingUnique(FirstsOf(active), b.Active());
  }

  method SortActive(ghost b: Batch, ghost ids: seq<Identity>, active: seq<Group>) returns (sorted: seq<Group>)
    requires ActiveAmong(b, active, ids) && forall id :: Waiting(b, id) ==> id in ids
    ensures InBrokerOrder(b, sorted) && |sorted| == |active|
  {
    sorted := Sort(active, FirstBefore);
    ReorderedGroups(active, sorted);
    forall k | 0 <= k < |sorted| ensures Admitted(b, sorted[k]) {
      assert sorted[k] in active;
    }
    hide Admitted, Waiting, Batch.Active;
    SortedFirsts(b, sorted);
    ActiveFirsts(b, sorted);
    assert |multiset(sorted)| == |multiset(active)|;
  }
}
