/** What each phase of the set-based batch algorithm owes every identity. */
module InboxPhases {
  import opened InboxTables
  import opened BatchRuntime
  import opened InboxAttempt
  import opened InboxBatch

  /** The statements by which an outcome is settled in phase k. */
  function SettlePart(c: Cycle, n: nat, limit: nat, o: Outcome, now: Time, k: nat): seq<Statement> {
    var kind := Classify(o).0;
    if k == 1 && !kind.KindDefer? then [Bump(c)]
    else if k == 2 && kind.KindSuccess? then [MarkComplete(c.id, now)]
    else if k == 3 && kind.KindPermanent? then [MarkTerminal(c)]
    else if k == 4 && kind.KindDefer? && n == 1 then [PreserveZero(c)]
    else if k == 5 && kind.KindPermanent? then [Record(c, n, Permanent, now)]
    else if k == 5 && (kind.KindRetryAfter? || kind.KindOrdinary?) && n >= limit
    then [Record(c, n, AttemptsExhausted, now)]
    else []
  }

  /** The statements that one attempt contributes to phase k. */
  function AttemptPart(db: Tables, key: Key, fp: Digest, limit: nat, o: Outcome, now: Time, k: nat): seq<Statement> {
    var first := if k == 0 then FreshIdentity(db, key.id, fp) else [];
    match Decide(db, key, fp, limit)
    case Closed(n, kind) => first + (if k == 5 then [Record(CycleOf(key, fp), n, kind, now)] else [])
    case Invoke(n) => first + SettlePart(CycleOf(key, fp), n, limit, o, now, k)
    case _ => []
  }

  /** The statements that the lead at position i contributes to phase k. */
  function PhasePart(b: Batch, i: nat, k: nat): seq<Statement>
    requires i < |b.items|
  {
    AttemptPart(b.db, b.items[i].key, b.items[i].fp, b.limit, b.OutcomeOf(b.items[i].key.id), b.now, k)
  }

  function Here(s: Statement, k: nat): seq<Statement> {
    if Phase(s) == k then [s] else []
  }

  lemma InPhaseStep(ss: seq<Statement>, k: nat)
    ensures ss == [] ==> InPhase(ss, k) == []
    ensures ss != [] ==> InPhase(ss, k) == Here(ss[0], k) + InPhase(ss[1..], k)
  {
  }

  lemma {:induction false} InPhaseAppend(x: seq<Statement>, y: seq<Statement>, k: nat)
    ensures InPhase(x + y, k) == InPhase(x, k) + InPhase(y, k)
  {
    hide InPhase, Here;
    InPhaseStep(x, k);
    InPhaseStep(x + y, k);
    if x == [] {
      assert x + y == y;
    } else {
      InPhaseAppend(x[1..], y, k);
      assert (x + y)[1..] == x[1..] + y;
    }
  }

  lemma InPhaseSmall(ss: seq<Statement>, k: nat)
    ensures |ss| == 0 ==> InPhase(ss, k) == []
    ensures |ss| == 1 ==> InPhase(ss, k) == Here(ss[0], k)
    ensures |ss| == 2 ==> InPhase(ss, k) == Here(ss[0], k) + Here(ss[1], k)
    ensures |ss| == 3 ==> InPhase(ss, k) == Here(ss[0], k) + Here(ss[1], k) + Here(ss[2], k)
    decreases |ss|
  {
    hide InPhase, Here;
    InPhaseStep(ss, k);
    if |ss| > 0 {
      InPhaseSmall(ss[1..], k);
    }
  }

  lemma SettleInPhase(c: Cycle, n: nat, limit: nat, o: Outcome, now: Time, k: nat)
    requires n > 0
    ensures InPhase(Settle(c, n, limit, o, now), k) == SettlePart(c, n, limit, o, now, k)
  {
    InPhaseSmall(Settle(c, n, limit, o, now), k);
  }

  lemma FreshInPhase(db: Tables, id: Identity, fp: Digest, rest: seq<Statement>, k: nat)
    ensures InPhase(FreshIdentity(db, id, fp) + rest, k)
            == (if k == 0 then FreshIdentity(db, id, fp) else []) + InPhase(rest, k)
  {
    InPhaseAppend(FreshIdentity(db, id, fp), rest, k);
    InPhaseSmall(FreshIdentity(db, id, fp), k);
  }

  /** Splitting an attempt's statements by phase gives exactly the parts above. */
  lemma AttemptInPhase(db: Tables, key: Key, fp: Digest, limit: nat, o: Outcome, now: Time, k: nat)
    ensures InPhase(Statements(db, key, fp, limit, o, now), k) == AttemptPart(db, key, fp, limit, o, now, k)
  {
    var c := CycleOf(key, fp);
    var d := Decide(db, key, fp, limit);
    hide InPhase, SettlePart, CycleOf, FreshIdentity;
    InPhaseSmall([], k);
    if d.Closed? {
      var record := Record(c, d.attempt, d.kind, now);
      FreshInPhase(db, key.id, fp, [record], k);
      InPhaseSmall([record], k);
    } else if d.Invoke? {
      assert d.attempt > 0;
      var rest := Settle(c, d.attempt, limit, o, now);
      FreshInPhase(db, key.id, fp, rest, k);
      SettleInPhase(c, d.attempt, limit, o, now, k);
      assert Statements(db, key, fp, limit, o, now) == FreshIdentity(db, key.id, fp) + rest;
    }
  }

  lemma PartOfLead(b: Batch, id: Identity, k: nat)
    ensures InPhase(LeadStatements(b, id), k) == if b.Lead(id).Some? then PhasePart(b, b.Lead(id).value, k) else []
  {
    if b.Lead(id).Some? {
      var item := b.items[b.Lead(id).value];
      AttemptInPhase(b.db, item.key, item.fp, b.limit, b.OutcomeOf(id), b.now, k);
    }
  }

  /** What the running transaction shows of an identity is what that identity's statements made of it. */
  lemma RowsSoFar(db: Tables, trace: seq<Statement>, id: Identity)
    ensures SameRows(ExecAll(db, trace), ExecAll(db, Project(trace, id)), id)
  {
    ExecAllProject(db, db, trace, id);
  }

  lemma RowsUntouched(db: Tables, trace: seq<Statement>, id: Identity)
    requires Project(trace, id) == []
    ensures SameRows(db, ExecAll(db, trace), id)
  {
    RowsSoFar(db, trace, id);
  }
}
