/** Bulk settlement of a batch after its handler returned: counters, outcomes,
    completion and terminal marks, deferral rows and terminal records. */
module InboxSettlement {
  import opened InboxTables
  import opened BatchRuntime
  import opened InboxAttempt
  import opened InboxBatch
  import opened InboxPhases
  import opened InboxGroups
  import opened InboxSqliteBatch

  // ---------------------------------------------------------------- bulk statements

  ghost predicate Parts(f: Identity -> seq<Statement>, k: nat, p: Identity -> seq<Statement>) {
    forall id :: p(id) == InPhase(f(id), k)
  }

  ghost predicate WellTargeted(f: Identity -> seq<Statement>) {
    && (forall id :: PhaseOrdered(f(id)))
    && (forall id, s | s in f(id) :: Target(s) == id)
  }

  lemma {:induction false} InPhaseSubset(ss: seq<Statement>, k: nat, s: Statement)
    requires s in InPhase(ss, k)
    ensures s in ss && Phase(s) == k
  {
    InPhaseStep(ss, k);
    if s !in Here(ss[0], k) {
      InPhaseSubset(ss[1..], k, s);
    }
  }

  /** One set-based statement that serves every identity owed something in this phase completes the phase. */
  lemma BulkReaches(trace: seq<Statement>, f: Identity -> seq<Statement>, k: nat,
                    p: Identity -> seq<Statement>, order: seq<Identity>)
    requires Reached(trace, f, k, {}) && Parts(f, k, p) && WellTargeted(f)
    requires Distinct(order) && forall id :: p(id) != [] ==> id in order
    ensures Reached(trace + Concat(order, p), f, k + 1, {})
  {
    forall i, s | s in p(i) ensures Target(s) == i {
      InPhaseSubset(f(i), k, s);
    }
    forall id ensures Project(trace + Concat(order, p), id) == BelowPhase(f(id), k + 1) {
      hide Project, BelowPhase, InPhase, Concat, Reached, PhaseOrdered;
      ProjectAppend(trace, Concat(order, p), id);
      ConcatProjection(order, p, id);
      ReachedAt(trace, f, k, id);
      PhaseSplit(f(id), k);
    }
    assert Reached(trace + Concat(order, p), f, k + 1, {});
  }

  lemma ReachedAt(trace: seq<Statement>, f: Identity -> seq<Statement>, k: nat, id: Identity)
    requires Reached(trace, f, k, {})
    ensures Project(trace, id) == BelowPhase(f(id), k)
  {
  }

  lemma {:induction false} ConcatSnoc(ids: seq<Identity>, p: Identity -> seq<Statement>, id: Identity)
    ensures Concat(ids + [id], p) == Concat(ids, p) + p(id)
  {
    if ids == [] {
      assert ids + [id] == [id];
      assert Concat([id], p) == p(id) + Concat([], p);
    } else {
      assert (ids + [id])[1..] == ids[1..] + [id];
      ConcatSnoc(ids[1..], p, id);
    }
  }

  /** The rows of one set-based statement, one per group. */
  method BulkRows(items: seq<BatchItem>, groups: seq<Group>, make: Cycle -> Statement, ghost p: Identity -> seq<Statement>)
    returns (ss: seq<Statement>)
    requires forall k | 0 <= k < |groups| :: |groups[k].matching| > 0 && groups[k].matching[0] < |items|
    requires forall k | 0 <= k < |groups| :: p(groups[k].id) == [make(CycleAt(items, groups[k]))]
    ensures ss == Concat(IdsOf(groups), p)
  {
    ss := [];
    for k := 0 to |groups|
      invariant ss == Concat(IdsOf(groups)[..k], p)
    {
      assert IdsOf(groups)[..k + 1] == IdsOf(groups)[..k] + [groups[k].id];
      ConcatSnoc(IdsOf(groups)[..k], p, groups[k].id);
      ss := ss + [make(CycleAt(items, groups[k]))];
    }
    assert IdsOf(groups)[..|groups|] == IdsOf(groups);
  }

  function CycleAt(items: seq<BatchItem>, g: Group): Cycle
    requires |g.matching| > 0 && g.matching[0] < |items|
  {
    CycleOf(items[g.matching[0]].key, items[g.matching[0]].fp)
  }

  // ---------------------------------------------------------------- what the active groups are owed

  /** The handler's result for each active group. */
  ghost predicate Answered(b: Batch, active: seq<Group>, outcomes: seq<Outcome>) {
    && |outcomes| == |active|
    && forall k | 0 <= k < |active| :: outcomes[k] == b.OutcomeOf(active[k].id)
  }

  lemma AdmittedCycle(b: Batch, g: Group)
    requires Admitted(b, g) && b.limit > 0
    ensures |g.matching| > 0 && g.matching[0] == g.first < |b.items|
    ensures CycleAt(b.items, g).id == g.id && b.items[g.first].key.id == g.id
    ensures b.Decision(g.first) == Invoke(g.state.attempts + 1)
    ensures b.IsLead(g.first)
  {
    AdmissionIsDecision(b, g.first);
  }

  /** An identity that awaits the handler is owed exactly the settlement of its outcome. */
  lemma ActivePart(b: Batch, f: Identity -> seq<Statement>, g: Group, k: nat)
    requires Follows(b, f) && Admitted(b, g) && b.limit > 0 && k > 0
    ensures |g.matching| > 0 && g.matching[0] < |b.items|
    ensures InPhase(f(g.id), k) == SettlePart(CycleAt(b.items, g), g.state.attempts + 1, b.limit, b.OutcomeOf(g.id), b.now, k)
  {
    AdmittedCycle(b, g);
    PartOfLead(b, g.id, k);
  }

  /** Nobody else is owed anything before the terminal records are written. */
  lemma QuietPart(b: Batch, f: Identity -> seq<Statement>, id: Identity, k: nat)
    requires Follows(b, f) && !Waiting(b, id) && 0 < k < 5
    ensures InPhase(f(id), k) == []
  {
    PartOfLead(b, id, k);
  }

  /** Which outcomes the increment, completion and terminal-mark statements serve, and with which row. */
  predicate Wants(k: nat, kind: Kind) {
    (k == 1 && !kind.KindDefer?) || (k == 2 && kind.KindSuccess?) || (k == 3 && kind.KindPermanent?)
  }

  function Make(k: nat, c: Cycle, now: Time): Statement {
    if k == 1 then Bump(c) else if k == 2 then MarkComplete(c.id, now) else MarkTerminal(c)
  }

  /** The active groups whose outcome a statement serves, in order. */
  method SelectGroups(active: seq<Group>, outcomes: seq<Outcome>, k: nat) returns (chosen: seq<Group>)
    requires |outcomes| == |active| && Distinct(IdsOf(active))
    ensures Distinct(IdsOf(chosen))
    ensures forall j | 0 <= j < |active| && Wants(k, Classify(outcomes[j]).0) :: active[j].id in IdsOf(chosen)
    ensures forall g | g in chosen :: exists j | 0 <= j < |active| :: g == active[j] && Wants(k, Classify(outcomes[j]).0)
  {
    hide Wants;
    chosen := [];
    for n := 0 to |active|
      invariant Distinct(IdsOf(chosen))
      invariant forall id :: id in IdsOf(chosen) ==> id in IdsOf(active)[..n]
      invariant forall j | 0 <= j < n && Wants(k, Classify(outcomes[j]).0) :: active[j].id in IdsOf(chosen)
      invariant forall g | g in chosen :: exists j | 0 <= j < n :: g == active[j] && Wants(k, Classify(outcomes[j]).0)
    {
      TakeStep(IdsOf(active), n);
      if Wants(k, Classify(outcomes[n]).0) {
        assert active[n].id !in IdsOf(active)[..n];
        assert IdsOf(chosen + [active[n]]) == IdsOf(chosen) + [active[n].id];
        DistinctSnoc(IdsOf(chosen), active[n].id);
        chosen := chosen + [active[n]];
      }
    }
  }

  predicate IsLegacy(items: seq<BatchItem>, g: Group) {
    |g.matching| > 0 && g.matching[0] < |items| && items[g.matching[0]].key.generation == ""
  }

  /** The groups of one attempt table, in the order given. */
  ghost function Only(items: seq<BatchItem>, groups: seq<Group>, legacy: bool): (r: seq<Group>)
    ensures forall g | g in r :: IsLegacy(items, g) == legacy
  {
    if groups == [] then []
    else
      var last := |groups| - 1;
      Only(items, groups[..last], legacy) + if IsLegacy(items, groups[last]) == legacy then [groups[last]] else []
  }

  /** The groups that carry no generation first, then the replayed ones; either part keeps its order. */
  method LegacyFirst(items: seq<BatchItem>, groups: seq<Group>) returns (order: seq<Group>)
    requires forall k | 0 <= k < |groups| :: |groups[k].matching| > 0 && groups[k].matching[0] < |items|
    ensures multiset(order) == multiset(groups)
    ensures order == Only(items, groups, true) + Only(items, groups, false)
  {
    OnlySplits(items, groups);
    hide Only;
    order := [];
    var replayed := [];
    OnlyNone(items);
    assert groups[..0] == [];
    for k := 0 to |groups|
      invariant order == Only(items, groups[..k], true) && replayed == Only(items, groups[..k], false)
    {
      OnlyLast(items, groups[..k], groups[k]);
      assert groups[..k + 1] == groups[..k] + [groups[k]];
      if items[groups[k].matching[0]].key.generation == "" {
        order := order + [groups[k]];
      } else {
        replayed := replayed + [groups[k]];
      }
    }
    assert groups[..|groups|] == groups;
    order := order + replayed;
  }

  lemma OnlyNone(items: seq<BatchItem>)
    ensures Only(items, [], true) == [] == Only(items, [], false)
  {
  }

  lemma OnlyLast(items: seq<BatchItem>, front: seq<Group>, g: Group)
    ensures IsLegacy(items, g) ==> Only(items, front + [g], true) == Only(items, front, true) + [g]
                                   && Only(items, front + [g], false) == Only(items, front, false)
    ensures !IsLegacy(items, g) ==> Only(items, front + [g], true) == Only(items, front, true)
                                    && Only(items, front + [g], false) == Only(items, front, false) + [g]
  {
    hide IsLegacy;
    assert (front + [g])[..|front|] == front;
  }

  lemma {:induction false} OnlySplits(items: seq<BatchItem>, groups: seq<Group>)
    ensures multiset(Only(items, groups, true) + Only(items, groups, false)) == multiset(groups)
  {
    if groups == [] {
      OnlyNone(items);
    } else {
      hide *;
      var front, g := groups[..|groups| - 1], groups[|groups| - 1];
      OnlySplits(items, front);
      OnlyLast(items, front, g);
      AddedToEither(Only(items, front, true), Only(items, front, false), front, g);
      assert groups == front + [g];
    }
  }

  lemma AddedToEither<T>(a: seq<T>, b: seq<T>, all: seq<T>, x: T)
    requires multiset(a + b) == multiset(all)
    ensures multiset((a + [x]) + b) == multiset(all + [x]) == multiset(a + (b + [x]))
  {
  }

  /** The listed groups are exactly those owed a row in this phase. */
  ghost predicate ServesPhase(b: Batch, f: Identity -> seq<Statement>, k: nat, groups: seq<Group>) {
    && Distinct(IdsOf(groups))
    && (forall j | 0 <= j < |groups| ::
          && |groups[j].matching| > 0 && groups[j].matching[0] < |b.items|
          && InPhase(f(groups[j].id), k) == [Make(k, CycleAt(b.items, groups[j]), b.now)])
    && (forall id :: InPhase(f(id), k) != [] ==> id in IdsOf(groups))
  }

  lemma ChosenServe(b: Batch, f: Identity -> seq<Statement>, k: nat, active: seq<Group>, outcomes: seq<Outcome>,
                    chosen: seq<Group>)
    requires Follows(b, f) && b.limit > 0 && 1 <= k <= 3
    requires InBrokerOrder(b, active) && Answered(b, active, outcomes)
    requires Distinct(IdsOf(chosen))
    requires forall j | 0 <= j < |active| && Wants(k, Classify(outcomes[j]).0) :: active[j].id in IdsOf(chosen)
    requires forall g | g in chosen :: exists j | 0 <= j < |active| :: g == active[j] && Wants(k, Classify(outcomes[j]).0)
    ensures ServesPhase(b, f, k, chosen)
  {
    hide Admitted, Waiting, Follows, InPhase;
    forall j | 0 <= j < |chosen|
      ensures |chosen[j].matching| > 0 && chosen[j].matching[0] < |b.items|
      ensures InPhase(f(chosen[j].id), k) == [Make(k, CycleAt(b.items, chosen[j]), b.now)]
    {
      assert chosen[j] in chosen;
      var x :| 0 <= x < |active| && chosen[j] == active[x] && Wants(k, Classify(outcomes[x]).0);
      ActivePart(b, f, active[x], k);
    }
    forall id | InPhase(f(id), k) != [] ensures id in IdsOf(chosen) {
      if !Waiting(b, id) {
        QuietPart(b, f, id, k);
      }
      assert id in IdsOf(active);
      var x :| 0 <= x < |active| && IdsOf(active)[x] == id;
      ActivePart(b, f, active[x], k);
    }
  }

  lemma ReorderedServe(b: Batch, f: Identity -> seq<Statement>, k: nat, groups: seq<Group>, order: seq<Group>)
    requires ServesPhase(b, f, k, groups) && multiset(groups) == multiset(order)
    ensures ServesPhase(b, f, k, order)
  {
    hide InPhase;
    ReorderedGroups(groups, order);
    forall j | 0 <= j < |order|
      ensures |order[j].matching| > 0 && order[j].matching[0] < |b.items|
      ensures InPhase(f(order[j].id), k) == [Make(k, CycleAt(b.items, order[j]), b.now)]
    {
      assert order[j] in groups;
      var x :| 0 <= x < |groups| && groups[x] == order[j];
    }
  }

  /** Executes one phase's set-based statement. */
  method ApplyRows(ghost b: Batch, ghost f: Identity -> seq<Statement>, k: nat, items: seq<BatchItem>, now: Time,
                   groups: seq<Group>, tx: Tables, ghost trace: seq<Statement>)
    returns (tx': Tables, ghost trace': seq<Statement>)
    requires b.items == items && b.now == now && WellTargeted(f) && ServesPhase(b, f, k, groups)
    requires tx == ExecAll(b.db, trace) && Reached(trace, f, k, {})
    ensures tx' == ExecAll(b.db, trace') && Reached(trace', f, k + 1, {})
  {
    hide InPhase, WellTargeted, Reached, ExecAll;
    ghost var p := (id: Identity) => InPhase(f(id), k);
    var ss := BulkRows(items, groups, (c: Cycle) => Make(k, c, now), p);
    tx' := ExecAll(tx, ss);
    trace' := trace + ss;
    BulkReaches(trace, f, k, p, IdsOf(groups));
    ExecAllAppend(b.db, trace, ss);
  }

  // ---------------------------------------------------------------- outcomes of the active groups

  /** Until the increment an active identity has seen its insert and its increment, nothing else. */
  lemma BumpedTrace(b: Batch, f: Identity -> seq<Statement>, trace: seq<Statement>, g: Group)
    requires Follows(b, f) && Admitted(b, g) && b.limit > 0 && WellTargeted(f)
    requires Reached(trace, f, 2, {}) && !Classify(b.OutcomeOf(g.id)).0.KindDefer?
    ensures |g.matching| > 0 && g.matching[0] == g.first < |b.items|
    ensures Project(trace, g.id) == FreshIdentity(b.db, g.id, b.items[g.first].fp) + [Bump(CycleAt(b.items, g))]
  {
    hide *;
    AdmittedCycle(b, g);
    BumpPart(b, f, g);
    FirstPart(b, f, g);
    TwoPhases(trace, f, g.id);
  }

  lemma TwoPhases(trace: seq<Statement>, f: Identity -> seq<Statement>, id: Identity)
    requires WellTargeted(f) && Reached(trace, f, 2, {})
    ensures Project(trace, id) == InPhase(f(id), 0) + InPhase(f(id), 1)
  {
    hide BelowPhase, InPhase, Project, Reached, PhaseOrdered;
    AllPhases(f(id));
    PhaseSplit(f(id), 0);
    PhaseSplit(f(id), 1);
    ReachedAt(trace, f, 2, id);
  }

  lemma BumpPart(b: Batch, f: Identity -> seq<Statement>, g: Group)
    requires Follows(b, f) && Admitted(b, g) && b.limit > 0 && !Classify(b.OutcomeOf(g.id)).0.KindDefer?
    ensures |g.matching| > 0 && g.matching[0] < |b.items|
    ensures InPhase(f(g.id), 1) == [Bump(CycleAt(b.items, g))]
  {
    hide Follows, Admitted, InPhase, CycleAt;
    ActivePart(b, f, g, 1);
  }

  lemma FirstPart(b: Batch, f: Identity -> seq<Statement>, g: Group)
    requires Follows(b, f) && Admitted(b, g) && b.limit > 0
    ensures g.first < |b.items|
    ensures InPhase(f(g.id), 0) == FreshIdentity(b.db, g.id, b.items[g.first].fp)
  {
    AdmittedCycle(b, g);
    PartOfLead(b, g.id, 0);
  }

  /** The counter that the transaction shows after the increment statement. */
  lemma BumpedCounter(b: Batch, f: Identity -> seq<Statement>, trace: seq<Statement>, g: Group)
    requires Follows(b, f) && Admitted(b, g) && b.limit > 0 && WellTargeted(f)
    requires Reached(trace, f, 2, {}) && !Classify(b.OutcomeOf(g.id)).0.KindDefer?
    ensures |g.matching| > 0 && g.matching[0] < |b.items|
    ensures var state := ReadAttempt(ExecAll(b.db, trace), CycleAt(b.items, g));
            state.Some? && state.value.attempts == g.state.attempts + 1
  {
    hide *;
    BumpedTrace(b, f, trace, g);
    AdmittedCycle(b, g);
    var c := CycleAt(b.items, g);
    var fp := b.items[g.first].fp;
    RowsSoFar(b.db, trace, g.id);
    ReadLocal(ExecAll(b.db, trace), ExecAll(b.db, FreshIdentity(b.db, g.id, fp) + [Bump(c)]), c);
    BumpReads(b.db, g.id, fp, c);
    AdmittedState(b, g);
  }

  lemma AdmittedState(b: Batch, g: Group)
    requires Admitted(b, g) && b.limit > 0 && |g.matching| > 0 && g.matching[0] < |b.items|
    ensures var before := ReadAttempt(b.db, CycleAt(b.items, g));
            g.state.attempts == if before.Some? then before.value.attempts else 0
  {
    AdmittedCycle(b, g);
  }

  lemma BumpReadsOne(db: Tables, c: Cycle)
    ensures var state := ReadAttempt(Exec(db, Bump(c)), c); var before := ReadAttempt(db, c);
            state.Some? && state.value.attempts == (if before.Some? then before.value.attempts else 0) + 1
  {
  }

  lemma BumpReads(db: Tables, id: Identity, fp: Digest, c: Cycle)
    ensures var state := ReadAttempt(ExecAll(db, FreshIdentity(db, id, fp) + [Bump(c)]), c);
            var before := ReadAttempt(db, c);
            state.Some? && state.value.attempts == (if before.Some? then before.value.attempts else 0) + 1
  {
    hide ReadAttempt, Exec, ExecAll, FreshIdentity;
    var mid := ExecAll(db, FreshIdentity(db, id, fp));
    ExecAllAppend(db, FreshIdentity(db, id, fp), [Bump(c)]);
    ExecSmall(mid, [Bump(c)]);
    FreshReadsAlike(db, id, fp, c);
    BumpReadsOne(mid, c);
  }

  /** The outcome of a lead whose handler ran; before and after are its counter around the increment. */
  function HandledOutcome(item: BatchItem, before: nat, after: nat, limit: nat, o: Outcome): ItemOutcome {
    var r := ItemOutcome(item.key, item.fp, RETRY, after, false, Classify(o).1, NoFailure,
                         if o.Success? then None else Some(HandlerError(o.failure)));
    match Classify(o).0
    case KindDefer => r.(action := DEFER, attempt := before)
    case KindSuccess => r.(action := ACK)
    case KindPermanent => r.(action := DLQ, failure := ClosedAs(Permanent), delay := 0)
    case _ => if after >= limit then r.(action := DLQ, failure := ClosedAs(AttemptsExhausted), delay := 0) else r
  }

  lemma HandledIsOutcome(b: Batch, g: Group)
    requires Admitted(b, g) && b.limit > 0
    ensures g.first < |b.items|
    ensures b.OutcomeAt(g.first)
            == HandledOutcome(b.items[g.first], g.state.attempts, g.state.attempts + 1, b.limit, b.OutcomeOf(g.id))
  {
    AdmittedCycle(b, g);
  }

  ghost predicate SlotsFilled(b: Batch, slots: Slots, ids: seq<Identity>) {
    && |slots| == |b.items|
    && forall i | 0 <= i < |b.items| ::
         slots[i] == if b.items[i].key.id in ids then Some(b.OutcomeAt(i)) else SlotAfter(b, i)
  }

  lemma FillStep(b: Batch, g: Group, ids: seq<Identity>, slots: Slots, slots': Slots)
    requires OneGeneration(b.items) && Admitted(b, g) && SlotsFilled(b, slots, ids) && g.id !in ids
    requires |slots'| == |b.items|
    requires forall i | 0 <= i < |b.items| ::
               slots'[i] == if i in g.matching then Some(Copied(b.OutcomeAt(g.first), b.items[i], i != g.first)) else slots[i]
    ensures SlotsFilled(b, slots', ids + [g.id])
  {
    b.MatchingSpec(g.id);
    forall i | 0 <= i < |b.items| && b.items[i].key.id == g.id ensures slots'[i] == Some(b.OutcomeAt(i)) {
      if b.Matches(i) {
        FollowerOutcome(b, g.id, i);
      }
    }
  }

  lemma FillStart(b: Batch, slots: Slots, order: seq<Identity>, ids: seq<Identity>)
    requires SlotsAfter(b, slots, order) && forall i | 0 <= i < |b.items| :: b.items[i].key.id in order
    ensures SlotsFilled(b, slots, ids[..0])
  {
  }

  lemma FillEnd(b: Batch, slots: Slots, ids: seq<Identity>)
    requires SlotsFilled(b, slots, ids) && forall id :: Waiting(b, id) ==> id in ids
    ensures forall i | 0 <= i < |b.items| :: slots[i] == Some(b.OutcomeAt(i))
  {
  }

  /** Gives every delivery of an active group its committed outcome, reading its counter again first. */
  method FillOutcomes(ghost b: Batch, ghost f: Identity -> seq<Statement>, items: seq<BatchItem>, limit: nat,
                      tx: Tables, ghost trace: seq<Statement>, active: seq<Group>, outcomes: seq<Outcome>, slots: Slots)
    returns (slots': Slots)
    requires b.items == items && b.limit == limit > 0 && OneGeneration(items) && Follows(b, f) && WellTargeted(f)
    requires tx == ExecAll(b.db, trace) && Reached(trace, f, 2, {})
    requires InBrokerOrder(b, active) && Answered(b, active, outcomes)
    requires SlotsFilled(b, slots, IdsOf(active)[..0])
    ensures |slots'| == |items| && forall i | 0 <= i < |items| :: slots'[i] == Some(b.OutcomeAt(i))
  {
    hide *;
    slots' := slots;
    ghost var ids := IdsOf(active);
    AnsweredLength(b, active, outcomes);
    for k := 0 to |active|
      invariant SlotsFilled(b, slots', ids[..k])
    {
      ActiveAt(b, active, outcomes, k);
      AdmittedCycle(b, active[k]);
      var after := 0;
      if !Classify(outcomes[k]).0.KindDefer? {
        BumpedCounter(b, f, trace, active[k]);
        after := ReadAttempt(tx, CycleAt(items, active[k])).value.attempts;
      }
      slots' := FillOne(b, items, limit, active[k], outcomes[k], after, ids[..k], slots');
      assert ids[..k + 1] == ids[..k] + [active[k].id];
    }
    assert ids[..|active|] == ids;
    AllWaiting(b, active);
    FillEnd(b, slots', ids);
    FilledLength(b, slots', ids);
  }

  lemma AnsweredLength(b: Batch, active: seq<Group>, outcomes: seq<Outcome>)
    requires Answered(b, active, outcomes)
    ensures |outcomes| == |active|
  {
  }

  lemma FilledLength(b: Batch, slots: Slots, ids: seq<Identity>)
    requires SlotsFilled(b, slots, ids)
    ensures |slots| == |b.items|
  {
  }

  lemma AllWaiting(b: Batch, active: seq<Group>)
    requires InBrokerOrder(b, active)
    ensures forall id :: Waiting(b, id) ==> id in IdsOf(active)
  {
  }

  lemma ActiveAt(b: Batch, active: seq<Group>, outcomes: seq<Outcome>, k: nat)
    requires InBrokerOrder(b, active) && Answered(b, active, outcomes) && k < |active|
    ensures Admitted(b, active[k]) && outcomes[k] == b.OutcomeOf(active[k].id)
    ensures active[k].id !in IdsOf(active)[..k]
  {
  }

  /** One active group; after is its counter once the increment was made, and is not used for a deferral. */
  method FillOne(ghost b: Batch, items: seq<BatchItem>, limit: nat, g: Group, o: Outcome, after: nat,
                 ghost ids: seq<Identity>, slots: Slots)
    returns (slots': Slots)
    requires b.items == items && b.limit == limit > 0 && OneGeneration(items)
    requires Admitted(b, g) && o == b.OutcomeOf(g.id) && g.id !in ids && SlotsFilled(b, slots, ids)
    requires Classify(o).0.KindDefer? || after == g.state.attempts + 1
    ensures SlotsFilled(b, slots', ids + [g.id])
  {
    hide *;
    AdmittedCycle(b, g);
    HandledIsOutcome(b, g);
    AdmittedMatching(b, g);
    FilledLength(b, slots, ids);
    var item := items[g.matching[0]];
    var outcome := HandledOutcome(item, g.state.attempts, after, limit, o);
    DeferIgnoresAfter(item, g.state.attempts, after, g.state.attempts + 1, limit, o);
    slots' := AssignOutcome(items, g.matching, outcome, slots);
    FillStep(b, g, ids, slots, slots');
  }

  lemma AdmittedMatching(b: Batch, g: Group)
    requires Admitted(b, g)
    ensures Increasing(g.matching) && forall k | 0 <= k < |g.matching| :: g.matching[k] < |b.items|
  {
    b.MatchingSpec(g.id);
    hide Batch.Lead, Batch.IsActive;
    assert forall k | 0 <= k < |g.matching| :: g.matching[k] in b.Matching(g.id);
  }

  lemma DeferIgnoresAfter(item: BatchItem, before: nat, x: nat, y: nat, limit: nat, o: Outcome)
    requires x == y || Classify(o).0.KindDefer?
    ensures HandledOutcome(item, before, x, limit, o) == HandledOutcome(item, before, y, limit, o)
  {
  }
}
