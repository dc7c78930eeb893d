/** What one committed batch means: every logical key is attempted once, on its
    first delivery whose fingerprint matches the stored identity. */
module InboxBatch {
  import opened InboxTables
  import opened BatchRuntime
  import opened InboxAttempt

  /** The positions below n that satisfy p, in increasing order. */
  function Select(n: nat, p: nat -> bool): (r: seq<nat>)
    ensures forall k | 0 <= k < |r| :: r[k] < n
  {
    if n == 0 then []
    else if p(n - 1) then Select(n - 1, p) + [n - 1]
    else Select(n - 1, p)
  }

  lemma {:induction false} SelectSpec(n: nat, p: nat -> bool)
    ensures Increasing(Select(n, p))
    ensures forall i: nat :: i in Select(n, p) <==> i < n && p(i)
  {
    if n > 0 {
      SelectSpec(n - 1, p);
      var r := Select(n - 1, p);
      if p(n - 1) {
        forall i: nat ensures i in r + [n - 1] <==> i in r || i == n - 1 {
        }
      }
    }
  }

  predicate Increasing(s: seq<nat>) {
    forall j, k | 0 <= j < k < |s| :: s[j] < s[k]
  }

  lemma LastIsGreatest(s: seq<nat>, x: nat)
    requires Increasing(s) && x in s
    ensures |s| > 0 && x <= s[|s| - 1]
    ensures x in s[..|s| - 1] <==> x != s[|s| - 1]
  {
    var last := |s| - 1;
    assert s == s[..last] + [s[last]];
    var k :| 0 <= k < |s| && s[k] == x;
    if k < last {
      assert s[..last][k] == x;
    }
  }

  lemma {:induction false} IncreasingBound(s: seq<nat>, n: nat)
    requires Increasing(s) && forall k | 0 <= k < |s| :: s[k] < n
    ensures |s| <= n
    decreases n
  {
    if s != [] {
      var last := |s| - 1;
      assert s[last] < n && forall k | 0 <= k < last :: s[k] < s[last];
      IncreasingBound(s[..last], n - 1);
    }
  }

  lemma FrontMembers(s: seq<nat>)
    requires Increasing(s) && s != []
    ensures var last := |s| - 1;
            && Increasing(s[..last]) && (forall x | x in s :: x <= s[last])
            && forall x :: x in s[..last] <==> x in s && x != s[last]
  {
    forall x | x in s ensures x <= s[|s| - 1] && (x in s[..|s| - 1] <==> x != s[|s| - 1]) {
      LastIsGreatest(s, x);
    }
  }

  /** An increasing list is determined by its members. */
  lemma {:induction false} IncreasingUnique(s: seq<nat>, t: seq<nat>)
    requires Increasing(s) && Increasing(t)
    requires forall x :: x in s <==> x in t
    ensures s == t
  {
    assert t != [] ==> t[0] in s;
    if s != [] {
      assert s[0] in t;
      var i, j := |s| - 1, |t| - 1;
      FrontMembers(s);
      FrontMembers(t);
      hide Increasing;
      assert s[i] in t && t[j] in s;
      IncreasingUnique(s[..i], t[..j]);
      assert s == s[..i] + [s[i]] && t == t[..j] + [t[j]];
    }
  }

  datatype BatchItem = BatchItem(key: Key, fp: Digest)

  datatype Action = ACK | RETRY | DEFER | DLQ

  datatype ItemFailure = NoFailure | IdentityConflict | ClosedAs(kind: CloseKind)

  datatype ItemOutcome = ItemOutcome(key: Key, fp: Digest, action: Action, attempt: nat, duplicate: bool,
                                     delay: nat, failure: ItemFailure, err: Option<InboxError>)

  /** Everything that determines a committed batch: the tables it began from, the admitted
      deliveries, the attempt limit, the handler's per-key results and the clock. */
  datatype Batch = Batch(db: Tables, items: seq<BatchItem>, limit: nat, results: map<ItemKey, Outcome>, now: Time) {

    /** The deliveries of one identity among the first n, in broker order. */
    function PositionsUpTo(id: Identity, n: nat): seq<nat>
      requires n <= |items|
    {
      Select(n, (i: nat) => i < |items| && items[i].key.id == id)
    }

    lemma PositionsSpec(id: Identity, n: nat)
      requires n <= |items|
      ensures Increasing(PositionsUpTo(id, n))
      ensures forall i: nat :: i in PositionsUpTo(id, n) <==> i < n && items[i].key.id == id
    {
      SelectSpec(n, (i: nat) => i < |items| && items[i].key.id == id);
    }

    function Positions(id: Identity): seq<nat> {
      PositionsUpTo(id, |items|)
    }

    /** The digest that the identity row holds once the batch has inserted its missing identities. */
    function Stored(id: Identity): Digest {
      if id in db.identities then db.identities[id].fp
      else if Positions(id) != [] then items[Positions(id)[0]].fp
      else 0
    }

    function Matches(i: nat): bool
      requires i < |items|
    {
      items[i].fp == Stored(items[i].key.id)
    }

    /** The deliveries of one identity whose fingerprint matches the stored one. */
    function Matching(id: Identity): seq<nat> {
      Select(|items|, (i: nat) => i < |items| && items[i].key.id == id && Matches(i))
    }

    lemma MatchingSpec(id: Identity)
      ensures Increasing(Matching(id))
      ensures forall i: nat :: i in Matching(id) <==> i < |items| && items[i].key.id == id && Matches(i)
    {
      SelectSpec(|items|, (i: nat) => i < |items| && items[i].key.id == id && Matches(i));
    }

    /** The delivery on which an identity is attempted. */
    function Lead(id: Identity): (r: Option<nat>)
      ensures r.Some? ==> r.value < |items| && items[r.value].key.id == id && Matches(r.value)
    {
      MatchingSpec(id);
      if Matching(id) == [] then None
      else
        assert Matching(id)[0] in Matching(id);
        Some(Matching(id)[0])
    }

    predicate IsLead(i: nat)
      requires i < |items|
    {
      Lead(items[i].key.id) == Some(i)
    }

    function Decision(i: nat): Decision
      requires i < |items|
    {
      Decide(db, items[i].key, items[i].fp, limit)
    }

    /** The leads whose handler must run. */
    predicate IsActive(i: nat)
      requires i < |items|
    {
      IsLead(i) && Decision(i).Invoke?
    }

    function OutcomeOf(id: Identity): Outcome {
      if id.item in results then results[id.item] else Success
    }

    function Leads(): seq<nat> {
      Select(|items|, (i: nat) => i < |items| && IsLead(i))
    }

    lemma LeadsSpec()
      ensures Increasing(Leads())
      ensures forall i: nat :: i in Leads() <==> i < |items| && IsLead(i)
    {
      SelectSpec(|items|, (i: nat) => i < |items| && IsLead(i));
    }

    function Active(): seq<nat> {
      Select(|items|, (i: nat) => i < |items| && IsActive(i))
    }

    lemma ActiveSpec()
      ensures Increasing(Active())
      ensures forall i: nat :: i in Active() <==> i < |items| && IsActive(i)
    {
      SelectSpec(|items|, (i: nat) => i < |items| && IsActive(i));
    }

    /** The unique active messages, in broker order, that the handler receives. */
    function HandlerItems(): seq<BatchItem> {
      var active := Active();
      seq(|active|, k requires 0 <= k < |active| => items[active[k]])
    }

    /** Reference meaning: one single-delivery attempt after another. */
    function Sequentially(from: Tables, leads: seq<nat>): Tables
      requires forall k | 0 <= k < |leads| :: leads[k] < |items|
      decreases |leads|
    {
      if leads == [] then from
      else Sequentially(AttemptAt(this, from, leads[0]), leads[1..])
    }

    function Result(): Tables {
      Sequentially(db, Leads())
    }

    /** The committed decision for one input position. */
    function OutcomeAt(i: nat): ItemOutcome
      requires i < |items|
    {
      var reply := if Matches(i) then ReplyTo(db, items[i].key, items[i].fp, limit, OutcomeOf(items[i].key.id))
                   else Reply(false, 0, Some(FingerprintConflict));
      FromReply(items[i], reply, limit, Matches(i) && !IsLead(i))
    }
  }

  /** The broker action that a single-delivery reply calls for; followers of a lead count as duplicates. */
  function FromReply(item: BatchItem, reply: Reply, limit: nat, follower: bool): ItemOutcome {
    var r := ItemOutcome(item.key, item.fp, DLQ, reply.attempt, reply.duplicate || follower, 0, NoFailure, reply.err);
    match reply.err
    case None => r.(action := ACK)
    case Some(FingerprintConflict) => r.(failure := IdentityConflict)
    case Some(AttemptTerminal) => r.(failure := ClosedAs(Permanent))
    case Some(AttemptsSpent) => r.(failure := ClosedAs(AttemptsExhausted))
    case Some(HandlerError(f)) =>
      var kind := Classify(Failed(f));
      if kind.0.KindPermanent? then r.(failure := ClosedAs(Permanent))
      else if kind.0.KindDefer? then r.(action := DEFER, delay := kind.1)
      else if reply.attempt >= limit then r.(failure := ClosedAs(AttemptsExhausted))
      else r.(action := RETRY, delay := kind.1)
    case Some(_) => r
  }

  // ---------------------------------------------------- statements by phase

  const PHASES := 6

  /** The statements an attempt contributes to one phase of the set-based algorithm. */
  function Phase(s: Statement): nat {
    match s
    case InsertIdentity(_, _) => 0
    case Bump(_) => 1
    case MarkComplete(_, _) => 2
    case MarkTerminal(_) => 3
    case PreserveZero(_) => 4
    case Record(_, _, _, _) => 5
  }

  function InPhase(ss: seq<Statement>, k: nat): seq<Statement> {
    if ss == [] then [] else (if Phase(ss[0]) == k then [ss[0]] else []) + InPhase(ss[1..], k)
  }

  function BelowPhase(ss: seq<Statement>, k: nat): seq<Statement> {
    if ss == [] then [] else (if Phase(ss[0]) < k then [ss[0]] else []) + BelowPhase(ss[1..], k)
  }

  predicate PhaseOrdered(ss: seq<Statement>) {
    forall i, j | 0 <= i < j < |ss| :: Phase(ss[i]) < Phase(ss[j])
  }

  lemma {:induction false} InPhaseAbove(ss: seq<Statement>, k: nat)
    requires forall i | 0 <= i < |ss| :: Phase(ss[i]) > k
    ensures InPhase(ss, k) == [] && BelowPhase(ss, k) == [] && BelowPhase(ss, k + 1) == []
  {
    if ss != [] {
      InPhaseAbove(ss[1..], k);
    }
  }

  /** An attempt's statements fall into the phases in order. */
  lemma {:induction false} PhaseSplit(ss: seq<Statement>, k: nat)
    requires PhaseOrdered(ss)
    ensures BelowPhase(ss, k + 1) == BelowPhase(ss, k) + InPhase(ss, k)
  {
    if ss != [] {
      PhaseSplit(ss[1..], k);
      if Phase(ss[0]) >= k {
        InPhaseAbove(ss[1..], k);
      }
    }
  }

  lemma {:induction false} AllPhases(ss: seq<Statement>)
    ensures BelowPhase(ss, PHASES) == ss && BelowPhase(ss, 0) == []
  {
    if ss != [] {
      AllPhases(ss[1..]);
      assert ss == [ss[0]] + ss[1..];
    }
  }

  lemma StatementsOrdered(db: Tables, key: Key, fp: Digest, limit: nat, outcome: Outcome, now: Time)
    ensures PhaseOrdered(Statements(db, key, fp, limit, outcome, now))
  {
  }

  // ------------------------------------------- sequential meaning as a trace

  /** The statements by which an identity's lead, if it has one, is settled. */
  function LeadStatements(b: Batch, id: Identity): seq<Statement> {
    match b.Lead(id)
    case None => []
    case Some(i) => Statements(b.db, b.items[i].key, b.items[i].fp, b.limit, b.OutcomeOf(id), b.now)
  }

  /** The statements of a list of identities, one identity after another. */
  function Concat(ids: seq<Identity>, f: Identity -> seq<Statement>): seq<Statement> {
    if ids == [] then [] else f(ids[0]) + Concat(ids[1..], f)
  }

  lemma ProjectHead(head: seq<Statement>, tail: seq<Statement>, own: Identity, id: Identity)
    requires forall s | s in head :: Target(s) == own
    ensures Project(head + tail, id) == (if own == id then head else []) + Project(tail, id)
  {
    ProjectAppend(head, tail, id);
    if own == id {
      ProjectOnto(head, id);
    } else {
      ProjectAway(head, id);
    }
  }

  lemma {:induction false} ConcatProjection(ids: seq<Identity>, f: Identity -> seq<Statement>, id: Identity)
    requires Distinct(ids)
    requires forall i, s | s in f(i) :: Target(s) == i
    ensures Project(Concat(ids, f), id) == if id in ids then f(id) else []
  {
    if ids != [] {
      ConcatProjection(ids[1..], f, id);
      ProjectHead(f(ids[0]), Concat(ids[1..], f), ids[0], id);
      if ids[0] == id {
        assert id !in ids[1..];
      } else {
        assert id in ids <==> id in ids[1..];
      }
    }
  }

  function IdsAt(b: Batch, leads: seq<nat>): (r: seq<Identity>)
    requires forall k | 0 <= k < |leads| :: leads[k] < |b.items|
    ensures |r| == |leads|
  {
    seq(|leads|, k requires 0 <= k < |leads| => b.items[leads[k]].key.id)
  }

  ghost predicate LeadList(b: Batch, leads: seq<nat>) {
    && (forall k | 0 <= k < |leads| :: leads[k] < |b.items| && b.IsLead(leads[k]))
    && Increasing(leads)
  }

  lemma LeadIdsDiffer(b: Batch, leads: seq<nat>)
    requires LeadList(b, leads)
    ensures Distinct(IdsAt(b, leads))
  {
    var ids := IdsAt(b, leads);
    forall j, k | 0 <= j < k < |leads| ensures ids[j] != ids[k] {
      assert b.IsLead(leads[j]) && b.IsLead(leads[k]);
    }
  }

  /** Attempting the i-th delivery executes its identity's statements and leaves the other identities as they were. */
  ghost predicate StepsAs(b: Batch, i: nat, ss: seq<Statement>)
    requires i < |b.items|
  {
    forall from | SameRows(b.db, from, b.items[i].key.id) ::
      && AttemptAt(b, from, i) == ExecAll(from, ss)
      && forall id | id != b.items[i].key.id && SameRows(b.db, from, id) :: SameRows(b.db, AttemptAt(b, from, i), id)
  }

  lemma LeadStep(b: Batch, i: nat)
    requires i < |b.items| && b.IsLead(i)
    ensures StepsAs(b, i, LeadStatements(b, b.items[i].key.id))
  {
    var item := b.items[i];
    var o := b.OutcomeOf(item.key.id);
    forall from | SameRows(b.db, from, item.key.id)
      ensures AttemptAt(b, from, i) == ExecAll(from, LeadStatements(b, item.key.id))
      ensures forall id | id != item.key.id && SameRows(b.db, from, id) :: SameRows(b.db, AttemptAt(b, from, i), id)
    {
      AttemptLocal(b.db, from, item.key, item.fp, b.limit, o, b.now);
      forall id | id != item.key.id && SameRows(b.db, from, id) ensures SameRows(b.db, AttemptAt(b, from, i), id) {
        AttemptFrame(from, item.key, item.fp, b.limit, o, b.now, id);
      }
    }
  }

  function AttemptAt(b: Batch, from: Tables, i: nat): Tables
    requires i < |b.items|
  {
    Attempt(from, b.items[i].key, b.items[i].fp, b.limit, b.OutcomeOf(b.items[i].key.id), b.now)
  }

  ghost predicate SameAt(a: Tables, b: Tables, ids: seq<Identity>) {
    forall k | 0 <= k < |ids| :: SameRows(a, b, ids[k])
  }

  lemma {:induction false} SequentialTrace(b: Batch, from: Tables, leads: seq<nat>, f: Identity -> seq<Statement>)
    requires forall k | 0 <= k < |leads| :: leads[k] < |b.items| && StepsAs(b, leads[k], f(b.items[leads[k]].key.id))
    requires Distinct(IdsAt(b, leads)) && SameAt(b.db, from, IdsAt(b, leads))
    ensures b.Sequentially(from, leads) == ExecAll(from, Concat(IdsAt(b, leads), f))
    decreases |leads|
  {
    if leads != [] {
      var ids, rest := IdsAt(b, leads), leads[1..];
      var mid := AttemptAt(b, from, leads[0]);
      assert ids[1..] == IdsAt(b, rest);
      assert ids[0] == b.items[leads[0]].key.id;
      assert SameAt(b.db, mid, ids[1..]);
      SequentialTrace(b, mid, rest, f);
      ExecAllAppend(from, f(ids[0]), Concat(ids[1..], f));
    }
  }

  lemma LeadStatementsTarget(b: Batch, id: Identity)
    ensures forall s | s in LeadStatements(b, id) :: Target(s) == id
  {
    var lead := b.Lead(id);
    if lead.Some? {
      var item := b.items[lead.value];
      StatementsTarget(b.db, item.key, item.fp, b.limit, b.OutcomeOf(id), b.now);
    }
  }

  lemma LeadIds(b: Batch)
    ensures LeadList(b, b.Leads())
    ensures Distinct(IdsAt(b, b.Leads()))
    ensures forall id :: id in IdsAt(b, b.Leads()) <==> b.Lead(id).Some?
  {
    var leads := b.Leads();
    var ids := IdsAt(b, leads);
    b.LeadsSpec();
    forall k | 0 <= k < |leads| ensures b.IsLead(leads[k]) {
      assert leads[k] in leads;
    }
    LeadIdsDiffer(b, leads);
    assert forall k | 0 <= k < |leads| :: b.Lead(ids[k]) == Some(leads[k]);
    forall id | b.Lead(id).Some? ensures id in ids {
      var i := b.Lead(id).value;
      assert b.IsLead(i);
      var k :| 0 <= k < |leads| && leads[k] == i;
      assert ids[k] == id;
    }
  }

  /** Any transaction that gives each identity exactly its lead's statements, however
      they are interleaved, commits the sequential result. */
  lemma InterleavingCommitsResult(b: Batch, trace: seq<Statement>, f: Identity -> seq<Statement>)
    requires forall id :: f(id) == LeadStatements(b, id)
    requires forall id :: Project(trace, id) == f(id)
    ensures ExecAll(b.db, trace) == b.Result()
  {
    var leads := b.Leads();
    var ids := IdsAt(b, leads);
    LeadIds(b);
    forall k | 0 <= k < |leads| ensures StepsAs(b, leads[k], f(b.items[leads[k]].key.id)) {
      LeadStep(b, leads[k]);
    }
    SequentialTrace(b, b.db, leads, f);
    forall i, s | s in f(i) ensures Target(s) == i {
      LeadStatementsTarget(b, i);
    }
    forall id ensures Project(trace, id) == Project(Concat(ids, f), id) {
      ConcatProjection(ids, f, id);
      assert b.Lead(id).None? ==> f(id) == [];
    }
    TransactionsAgree(b.db, trace, Concat(ids, f));
  }

  // ------------------------------------------- following a trace phase by phase

  /** The transaction has executed every statement of the phases before k, and those of phase k for the
      identities in done. */
  ghost predicate Reached(trace: seq<Statement>, f: Identity -> seq<Statement>, k: nat, done: set<Identity>) {
    forall id :: Project(trace, id) == BelowPhase(f(id), k) + (if id in done then InPhase(f(id), k) else [])
  }

  lemma ReachedStart(f: Identity -> seq<Statement>)
    ensures Reached([], f, 0, {})
  {
    forall id ensures Project([], id) == BelowPhase(f(id), 0) {
      AllPhases(f(id));
    }
  }

  lemma ReachedAdd(trace: seq<Statement>, f: Identity -> seq<Statement>, k: nat, done: set<Identity>, s: Statement)
    requires Reached(trace, f, k, done) && Target(s) !in done && InPhase(f(Target(s)), k) == [s]
    ensures Reached(trace + [s], f, k, done + {Target(s)})
  {
    forall id ensures Project(trace + [s], id)
                      == BelowPhase(f(id), k) + (if id in done + {Target(s)} then InPhase(f(id), k) else []) {
      ProjectAppend(trace, [s], id);
      assert Project([s], id) == if Target(s) == id then [s] else [];
    }
  }

  lemma ReachedSkip(trace: seq<Statement>, f: Identity -> seq<Statement>, k: nat, done: set<Identity>, id: Identity)
    requires Reached(trace, f, k, done) && InPhase(f(id), k) == []
    ensures Reached(trace, f, k, done + {id})
  {
  }

  lemma ReachedNext(trace: seq<Statement>, f: Identity -> seq<Statement>, k: nat, done: set<Identity>)
    requires Reached(trace, f, k, done)
    requires forall id :: PhaseOrdered(f(id)) && (id !in done ==> InPhase(f(id), k) == [])
    ensures Reached(trace, f, k + 1, {})
  {
    forall id ensures Project(trace, id) == BelowPhase(f(id), k + 1) {
      PhaseSplit(f(id), k);
    }
  }

  lemma ReachedEnd(b: Batch, trace: seq<Statement>, f: Identity -> seq<Statement>)
    requires forall id :: f(id) == LeadStatements(b, id)
    requires Reached(trace, f, PHASES, {})
    ensures ExecAll(b.db, trace) == b.Result()
  {
    forall id ensures Project(trace, id) == f(id) {
      AllPhases(f(id));
    }
    InterleavingCommitsResult(b, trace, f);
  }
}
