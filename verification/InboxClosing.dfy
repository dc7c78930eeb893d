/** The last two statements of a batch: zero rows for first deferrals and
    terminal records. */
module InboxClosing {
  import opened InboxTables
  import opened BatchRuntime
  import opened InboxAttempt
  import opened InboxBatch
  import opened InboxPhases
  import opened InboxGroups
  import opened InboxSqliteBatch
  import opened InboxSettlement

  // ---------------------------------------------------------------- deferral rows

  predicate FirstDeferral(o: ItemOutcome) {
    o.action == DEFER && o.attempt == 0
  }

  predicate Terminal(o: ItemOutcome) {
    o.action == DLQ && o.failure.ClosedAs?
  }

  /** The report carries the committed decision of every position. */
  ghost predicate Reports(b: Batch, outcomes: seq<ItemOutcome>) {
    |outcomes| == |b.items| && forall i | 0 <= i < |b.items| :: outcomes[i] == b.OutcomeAt(i)
  }

  function CycleIn(o: ItemOutcome): Cycle {
    CycleOf(o.key, o.fp)
  }

  lemma LeadOutcome(b: Batch, lead: nat)
    requires lead < |b.items| && b.IsLead(lead)
    ensures var item := b.items[lead];
            && b.OutcomeAt(lead)
               == FromReply(item, ReplyTo(b.db, item.key, item.fp, b.limit, b.OutcomeOf(item.key.id)), b.limit, false)
            && (item.key.id in b.db.identities ==> b.db.identities[item.key.id].fp == item.fp)
  {
    hide FromReply, ReplyTo;
    StoredByRow(b, lead);
  }

  lemma LeadPart(b: Batch, f: Identity -> seq<Statement>, lead: nat, k: nat)
    requires Follows(b, f) && lead < |b.items| && b.IsLead(lead)
    ensures var item := b.items[lead];
            InPhase(f(item.key.id), k)
            == AttemptPart(b.db, item.key, item.fp, b.limit, b.OutcomeOf(item.key.id), b.now, k)
  {
    hide AttemptPart, InPhase, LeadStatements;
    PartOfLead(b, b.items[lead].key.id, k);
  }

  /** A lead's report decides whether it is owed a deferral row or a terminal record. */
  lemma LeadClosing(b: Batch, f: Identity -> seq<Statement>, lead: nat)
    requires Follows(b, f) && b.limit > 0 && lead < |b.items| && b.IsLead(lead)
    ensures var o := b.OutcomeAt(lead); var id := b.items[lead].key.id;
            && CycleIn(o) == CycleOf(b.items[lead].key, b.items[lead].fp)
            && InPhase(f(id), 4) == (if FirstDeferral(o) then [PreserveZero(CycleIn(o))] else [])
            && InPhase(f(id), 5) == (if Terminal(o) then [Record(CycleIn(o), o.attempt, o.failure.kind, b.now)] else [])
  {
    hide *;
    var item := b.items[lead];
    LeadOutcome(b, lead);
    LeadPart(b, f, lead, 4);
    LeadPart(b, f, lead, 5);
    LeadParts(b.db, item, b.limit, b.OutcomeOf(item.key.id), b.now);
    CycleInLead(b, lead);
  }

  lemma CycleInLead(b: Batch, i: nat)
    requires i < |b.items|
    ensures CycleIn(b.OutcomeAt(i)) == CycleOf(b.items[i].key, b.items[i].fp)
    ensures b.OutcomeAt(i).key == b.items[i].key && b.OutcomeAt(i).fp == b.items[i].fp
  {
  }

  lemma LeadParts(db: Tables, item: BatchItem, limit: nat, o: Outcome, now: Time)
    requires limit > 0 && (item.key.id in db.identities ==> db.identities[item.key.id].fp == item.fp)
    ensures var r := FromReply(item, ReplyTo(db, item.key, item.fp, limit, o), limit, false);
            && AttemptPart(db, item.key, item.fp, limit, o, now, 4)
               == (if FirstDeferral(r) then [PreserveZero(CycleOf(item.key, item.fp))] else [])
            && AttemptPart(db, item.key, item.fp, limit, o, now, 5)
               == (if Terminal(r) then [Record(CycleOf(item.key, item.fp), r.attempt, r.failure.kind, now)] else [])
  {
    hide CycleOf, FreshIdentity;
  }

  /** The same facts at any position: followers repeat their lead, conflicts are owed nothing. */
  lemma PositionClosing(b: Batch, f: Identity -> seq<Statement>, i: nat)
    requires Follows(b, f) && b.limit > 0 && OneGeneration(b.items) && i < |b.items|
    ensures var o := b.OutcomeAt(i); var id := b.items[i].key.id;
            && o.key == b.items[i].key && o.fp == b.items[i].fp
            && (FirstDeferral(o) ==> InPhase(f(id), 4) == [PreserveZero(CycleIn(o))])
            && (Terminal(o) ==> InPhase(f(id), 5) == [Record(CycleIn(o), o.attempt, o.failure.kind, b.now)])
  {
    if b.Matches(i) {
      var id := b.items[i].key.id;
      b.MatchingSpec(id);
      assert i in b.Matching(id);
      var lead := b.Lead(id).value;
      FollowerOutcome(b, id, i);
      LeadClosing(b, f, lead);
    }
  }

  lemma OwedHasLead(b: Batch, f: Identity -> seq<Statement>, id: Identity, k: nat)
    requires Follows(b, f) && InPhase(f(id), k) != []
    ensures b.Lead(id).Some? && b.IsLead(b.Lead(id).value)
  {
    PartOfLead(b, id, k);
  }

  lemma PreserveKeeps(db: Tables, c: Cycle)
    ensures CounterAt(db, c).Some? ==> Exec(db, PreserveZero(c)) == db
    ensures CounterAt(Exec(db, PreserveZero(c)), c).Some?
  {
    if c.fp.Base? && c.id in db.legacy {
      assert db.legacy[c.id := db.legacy[c.id]] == db.legacy;
    } else if c.fp.Gen? && c in db.generations {
      assert db.generations[c := db.generations[c]] == db.generations;
    }
  }

  lemma PreservedAlready(db: Tables, trace: seq<Statement>, f: Identity -> seq<Statement>, done: set<Identity>, c: Cycle)
    requires Reached(trace, f, 4, done) && c.id in done && InPhase(f(c.id), 4) == [PreserveZero(c)]
    ensures CounterAt(ExecAll(db, trace), c).Some?
  {
    hide InPhase, BelowPhase, CounterAt, ExecAll, Exec;
    var below := BelowPhase(f(c.id), 4);
    assert Project(trace, c.id) == below + [PreserveZero(c)];
    RowsSoFar(db, trace, c.id);
    ExecAllAppend(db, below, [PreserveZero(c)]);
    var mid := ExecAll(db, below);
    ExecSmall(mid, [PreserveZero(c)]);
    PreserveKeeps(mid, c);
    ReadLocal(ExecAll(db, trace), ExecAll(db, below + [PreserveZero(c)]), c);
  }

  /** Inserts one zero row unless the cycle already has a row. */
  method PreserveOne(ghost db: Tables, ghost f: Identity -> seq<Statement>, c: Cycle, tx: Tables,
                     ghost trace: seq<Statement>, ghost done: set<Identity>)
    returns (tx': Tables, ghost trace': seq<Statement>)
    requires tx == ExecAll(db, trace) && Reached(trace, f, 4, done) && InPhase(f(c.id), 4) == [PreserveZero(c)]
    ensures tx' == ExecAll(db, trace') && Reached(trace', f, 4, done + {c.id})
  {
    hide InPhase, Reached, CounterAt, ExecAll, Exec;
    tx' := Exec(tx, PreserveZero(c));
    if c.id in done {
      PreservedAlready(db, trace, f, done, c);
      PreserveKeeps(tx, c);
      trace' := trace;
      assert done + {c.id} == done;
    } else {
      trace' := trace + [PreserveZero(c)];
      ExecAllAppend(db, trace, [PreserveZero(c)]);
      ExecSmall(tx, [PreserveZero(c)]);
      ReachedAdd(trace, f, 4, done, PreserveZero(c));
    }
  }

  /** One pass over the report, for the legacy table or for the generation table. */
  method PreservePass(ghost b: Batch, ghost f: Identity -> seq<Statement>, outcomes: seq<ItemOutcome>, replay: bool,
                      tx: Tables, ghost trace: seq<Statement>, ghost done: set<Identity>)
    returns (tx': Tables, ghost trace': seq<Statement>, ghost done': set<Identity>)
    requires Follows(b, f) && b.limit > 0 && OneGeneration(b.items) && Reports(b, outcomes)
    requires tx == ExecAll(b.db, trace) && Reached(trace, f, 4, done)
    ensures tx' == ExecAll(b.db, trace') && Reached(trace', f, 4, done') && done <= done'
    ensures forall i | 0 <= i < |outcomes| && FirstDeferral(outcomes[i]) && (outcomes[i].key.generation != "") == replay ::
              outcomes[i].key.id in done'
  {
    hide *;
    tx', trace', done' := tx, trace, done;
    for i := 0 to |outcomes|
      invariant tx' == ExecAll(b.db, trace') && Reached(trace', f, 4, done') && done <= done'
      invariant forall j | 0 <= j < i && FirstDeferral(outcomes[j]) && (outcomes[j].key.generation != "") == replay ::
                  outcomes[j].key.id in done'
    {
      if FirstDeferral(outcomes[i]) && (outcomes[i].key.generation != "") == replay {
        ReportAt(b, f, outcomes, i);
        var c := CycleIn(outcomes[i]);
        tx', trace' := PreserveOne(b.db, f, c, tx', trace', done');
        done' := done' + {c.id};
      }
    }
  }

  lemma ReportAt(b: Batch, f: Identity -> seq<Statement>, outcomes: seq<ItemOutcome>, i: nat)
    requires Follows(b, f) && b.limit > 0 && OneGeneration(b.items) && Reports(b, outcomes) && i < |outcomes|
    ensures CycleIn(outcomes[i]).id == outcomes[i].key.id
    ensures FirstDeferral(outcomes[i]) ==> InPhase(f(outcomes[i].key.id), 4) == [PreserveZero(CycleIn(outcomes[i]))]
    ensures Terminal(outcomes[i]) ==>
              InPhase(f(outcomes[i].key.id), 5)
              == [Record(CycleIn(outcomes[i]), outcomes[i].attempt, outcomes[i].failure.kind, b.now)]
  {
    PositionClosing(b, f, i);
  }

  lemma AllDeferred(b: Batch, f: Identity -> seq<Statement>, outcomes: seq<ItemOutcome>, done: set<Identity>, id: Identity)
    requires Follows(b, f) && b.limit > 0 && Reports(b, outcomes)
    requires forall i | 0 <= i < |outcomes| && FirstDeferral(outcomes[i]) :: outcomes[i].key.id in done
    ensures InPhase(f(id), 4) != [] ==> id in done
  {
    if InPhase(f(id), 4) != [] {
      OwedHasLead(b, f, id, 4);
      var lead := b.Lead(id).value;
      LeadClosing(b, f, lead);
      assert FirstDeferral(outcomes[lead]);
    }
  }

  method PreserveDeferred(ghost b: Batch, ghost f: Identity -> seq<Statement>, outcomes: seq<ItemOutcome>,
                          tx: Tables, ghost trace: seq<Statement>)
    returns (tx': Tables, ghost trace': seq<Statement>)
    requires Follows(b, f) && WellTargeted(f) && b.limit > 0 && OneGeneration(b.items) && Reports(b, outcomes)
    requires tx == ExecAll(b.db, trace) && Reached(trace, f, 4, {})
    ensures tx' == ExecAll(b.db, trace') && Reached(trace', f, 5, {})
  {
    ghost var done;
    tx', trace', done := PreservePass(b, f, outcomes, false, tx, trace, {});
    tx', trace', done := PreservePass(b, f, outcomes, true, tx', trace', done);
    hide Follows, Reports, ExecAll, Reached, InPhase, FirstDeferral;
    forall id ensures InPhase(f(id), 4) != [] ==> id in done {
      AllDeferred(b, f, outcomes, done, id);
    }
    ReachedNext(trace', f, 4, done);
  }

  // ---------------------------------------------------------------- terminal records

  /** The records collected so far: one per closed identity, in order of first report. */
  ghost predicate Marked(p: Identity -> seq<Statement>, ids: seq<Identity>, seen: set<Cycle>, ss: seq<Statement>) {
    && Distinct(ids) && ss == Concat(ids, p)
    && (forall c | c in seen :: c.id in ids)
    && (forall id | id in ids :: |p(id)| == 1 && p(id)[0].Record? && p(id)[0].c in seen)
  }

  lemma MarkedStart(p: Identity -> seq<Statement>)
    ensures Marked(p, [], {}, [])
  {
  }

  lemma MarkedStep(p: Identity -> seq<Statement>, ids: seq<Identity>, seen: set<Cycle>, ss: seq<Statement>,
                      c: Cycle, record: Statement)
    requires Marked(p, ids, seen, ss) && p(c.id) == [record] && record.Record? && record.c == c
    ensures c in seen ==> c.id in ids
    ensures c !in seen ==> Marked(p, ids + [c.id], seen + {c}, ss + [record])
  {
    if c !in seen {
      DistinctSnoc(ids, c.id);
      ConcatSnoc(ids, p, c.id);
    }
  }

  lemma AllRecorded(b: Batch, f: Identity -> seq<Statement>, outcomes: seq<ItemOutcome>, ids: seq<Identity>, id: Identity)
    requires Follows(b, f) && b.limit > 0 && Reports(b, outcomes)
    requires forall i | 0 <= i < |outcomes| && Terminal(outcomes[i]) :: outcomes[i].key.id in ids
    ensures InPhase(f(id), 5) != [] ==> id in ids
  {
    if InPhase(f(id), 5) != [] {
      OwedHasLead(b, f, id, 5);
      var lead := b.Lead(id).value;
      LeadClosing(b, f, lead);
      assert Terminal(outcomes[lead]);
    }
  }

  /** Writes one terminal record per closed cycle that the report mentions. */
  method RecordTerminals(ghost b: Batch, ghost f: Identity -> seq<Statement>, outcomes: seq<ItemOutcome>, now: Time,
                         tx: Tables, ghost trace: seq<Statement>)
    returns (tx': Tables, ghost trace': seq<Statement>)
    requires Follows(b, f) && WellTargeted(f) && b.limit > 0 && OneGeneration(b.items) && Reports(b, outcomes)
    requires b.now == now && tx == ExecAll(b.db, trace) && Reached(trace, f, 5, {})
    ensures tx' == ExecAll(b.db, trace') && Reached(trace', f, 6, {})
  {
    hide *;
    ghost var p := (id: Identity) => InPhase(f(id), 5);
    var seen: set<Cycle> := {};
    var ss := [];
    ghost var ids := [];
    MarkedStart(p);
    for i := 0 to |outcomes|
      invariant Marked(p, ids, seen, ss)
      invariant forall j | 0 <= j < i && Terminal(outcomes[j]) :: outcomes[j].key.id in ids
    {
      var o := outcomes[i];
      if Terminal(o) {
        ReportAt(b, f, outcomes, i);
        TerminalFields(o);
        var c := CycleIn(o);
        var record := Record(c, o.attempt, o.failure.kind, now);
        MarkedStep(p, ids, seen, ss, c, record);
        if c !in seen {
          seen := seen + {c};
          ss := ss + [record];
          ids := ids + [c.id];
        }
      }
    }
    forall id ensures InPhase(f(id), 5) != [] ==> id in ids {
      AllRecorded(b, f, outcomes, ids, id);
    }
    MarkedDone(p, ids, seen, ss);
    PartsOf(f, 5, p);
    BulkReaches(trace, f, 5, p, ids);
    tx' := ExecAll(tx, ss);
    trace' := trace + ss;
    ExecAllAppend(b.db, trace, ss);
  }

  lemma TerminalFields(o: ItemOutcome)
    requires Terminal(o)
    ensures o.failure.ClosedAs?
  {
  }

  lemma MarkedDone(p: Identity -> seq<Statement>, ids: seq<Identity>, seen: set<Cycle>, ss: seq<Statement>)
    requires Marked(p, ids, seen, ss)
    ensures Distinct(ids) && ss == Concat(ids, p)
  {
  }

  lemma PartsOf(f: Identity -> seq<Statement>, k: nat, p: Identity -> seq<Statement>)
    requires forall id :: p(id) == InPhase(f(id), k)
    ensures Parts(f, k, p)
  {
  }
}
