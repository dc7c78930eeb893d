/** One bounded handler attempt: what a delivery is entitled to, the statements
    its transaction commits and the reply it gets. */
module InboxAttempt {
  import opened InboxTables
  import opened BatchRuntime

  datatype InboxError =
    | FingerprintConflict
    | AttemptTerminal
    | AttemptsSpent
    | AttemptConflict
    | HandlerError(failure: Failure)
    | InvalidLimit

  datatype Reply = Reply(duplicate: bool, attempt: nat, err: Option<InboxError>)

  /** The attempt row joined with its terminal marker, as both backends read it. */
  datatype AttemptState = AttemptState(attempts: nat, terminal: bool, kind: Option<CloseKind>)

  function KindAt(db: Tables, c: Cycle): Option<CloseKind> {
    if c in db.terminal then Some(db.terminal[c].kind) else None
  }

  function ReadAttempt(db: Tables, c: Cycle): Option<AttemptState> {
    if c.fp.Base? then
      if c.id in db.legacy then
        var row := db.legacy[c.id];
        Some(AttemptState(row.attempts, row.terminal, KindAt(db, Cycle(c.id, row.fp))))
      else None
    else if c in db.generations then
      Some(AttemptState(db.generations[c].attempts, db.generations[c].terminal, KindAt(db, c)))
    else None
  }

  datatype Decision =
    | Refused
    | Conflict
    | Duplicate(attempt: nat)
    | Closed(attempt: nat, kind: CloseKind)
    | Invoke(attempt: nat)

  datatype Next = Next(attempt: nat, terminal: bool, exhausted: bool, present: bool)

  function NextAttempt(state: Option<AttemptState>, limit: nat): Next {
    if state.None? then Next(1, false, false, false)
    else if state.value.terminal || state.value.kind == Some(Permanent) then Next(state.value.attempts, true, false, true)
    else if state.value.attempts >= limit || state.value.kind == Some(AttemptsExhausted)
    then Next(state.value.attempts, false, true, true)
    else Next(state.value.attempts + 1, false, false, true)
  }

  /** What one delivery is entitled to, from the rows its transaction reads. */
  function Decide(db: Tables, key: Key, fp: Digest, limit: nat): Decision {
    var state := ReadAttempt(db, CycleOf(key, fp));
    var next := NextAttempt(state, limit);
    if limit == 0 then Refused
    else if key.id in db.identities && db.identities[key.id].fp != fp then Conflict
    else if Completed(db, key.id) then Duplicate(if state.Some? then state.value.attempts else 0)
    else if next.terminal then Closed(next.attempt, Permanent)
    else if next.exhausted then Closed(next.attempt, AttemptsExhausted)
    else Invoke(next.attempt)
  }

  function FreshIdentity(db: Tables, id: Identity, fp: Digest): seq<Statement> {
    if id in db.identities then [] else [InsertIdentity(id, fp)]
  }

  /** Statements that settle a handler outcome once the handler's own writes are kept or rolled back. */
  function Settle(c: Cycle, attempt: nat, limit: nat, outcome: Outcome, now: Time): seq<Statement>
    requires attempt > 0
  {
    match Classify(outcome).0
    case KindSuccess => [Bump(c), MarkComplete(c.id, now)]
    case KindPermanent => [Bump(c), MarkTerminal(c), Record(c, attempt, Permanent, now)]
    case KindDefer => if attempt == 1 then [PreserveZero(c)] else []
    case _ => if attempt >= limit then [Bump(c), Record(c, attempt, AttemptsExhausted, now)] else [Bump(c)]
  }

  /** Everything one committed ProcessAttempt transaction does to the tables. */
  function Statements(db: Tables, key: Key, fp: Digest, limit: nat, outcome: Outcome, now: Time): seq<Statement> {
    match Decide(db, key, fp, limit)
    case Refused => []
    case Conflict => []
    case Duplicate(_) => []
    case Closed(n, kind) => FreshIdentity(db, key.id, fp) + [Record(CycleOf(key, fp), n, kind, now)]
    case Invoke(n) => FreshIdentity(db, key.id, fp) + Settle(CycleOf(key, fp), n, limit, outcome, now)
  }

  function Attempt(db: Tables, key: Key, fp: Digest, limit: nat, outcome: Outcome, now: Time): Tables {
    ExecAll(db, Statements(db, key, fp, limit, outcome, now))
  }

  function ReplyTo(db: Tables, key: Key, fp: Digest, limit: nat, outcome: Outcome): Reply {
    match Decide(db, key, fp, limit)
    case Refused => Reply(false, 0, Some(InvalidLimit))
    case Conflict => Reply(false, 0, Some(FingerprintConflict))
    case Duplicate(n) => Reply(true, n, None)
    case Closed(n, kind) => Reply(false, n, Some(if kind.Permanent? then AttemptTerminal else AttemptsSpent))
    case Invoke(n) =>
      if outcome.Success? then Reply(false, n, None)
      else Reply(false, if Classify(outcome).0.KindDefer? then n - 1 else n, Some(HandlerError(outcome.failure)))
  }

  /** A delivery's entitlement, statements and reply depend only on its own identity's rows. */
  lemma AttemptLocal(a: Tables, b: Tables, key: Key, fp: Digest, limit: nat, outcome: Outcome, now: Time)
    requires SameRows(a, b, key.id)
    ensures Decide(a, key, fp, limit) == Decide(b, key, fp, limit)
    ensures Statements(a, key, fp, limit, outcome, now) == Statements(b, key, fp, limit, outcome, now)
    ensures ReplyTo(a, key, fp, limit, outcome) == ReplyTo(b, key, fp, limit, outcome)
  {
    ReadLocal(a, b, CycleOf(key, fp));
    assert Row(a.identities, key.id) == Row(b.identities, key.id);
  }

  lemma ReadLocal(a: Tables, b: Tables, c: Cycle)
    requires SameRows(a, b, c.id)
    ensures ReadAttempt(a, c) == ReadAttempt(b, c)
    ensures CounterAt(a, c) == CounterAt(b, c)
  {
    assert c == Cycle(c.id, c.fp);
    assert Row(a.legacy, c.id) == Row(b.legacy, c.id);
    assert Row(a.generations, c) == Row(b.generations, c);
    assert Row(a.terminal, c) == Row(b.terminal, c);
    if c.id in a.legacy {
      var d := Cycle(c.id, a.legacy[c.id].fp);
      assert Row(a.terminal, d) == Row(b.terminal, d);
    }
  }

  /** A delivery writes nothing outside its own identity. */
  lemma StatementsTarget(db: Tables, key: Key, fp: Digest, limit: nat, outcome: Outcome, now: Time)
    ensures forall s | s in Statements(db, key, fp, limit, outcome, now) :: Target(s) == key.id
  {
  }

  lemma {:induction false} ProjectOnto(ss: seq<Statement>, id: Identity)
    requires forall s | s in ss :: Target(s) == id
    ensures Project(ss, id) == ss
  {
    if ss != [] {
      ProjectOnto(ss[1..], id);
      assert ss == [ss[0]] + ss[1..];
    }
  }

  lemma {:induction false} ProjectAway(ss: seq<Statement>, id: Identity)
    requires forall s | s in ss :: Target(s) != id
    ensures Project(ss, id) == []
  {
    if ss != [] {
      ProjectAway(ss[1..], id);
    }
  }

  lemma AttemptFrame(db: Tables, key: Key, fp: Digest, limit: nat, outcome: Outcome, now: Time, id: Identity)
    requires id != key.id
    ensures SameRows(db, Attempt(db, key, fp, limit, outcome, now), id)
  {
    var ss := Statements(db, key, fp, limit, outcome, now);
    StatementsTarget(db, key, fp, limit, outcome, now);
    ProjectAway(ss, id);
    ExecAllProject(db, db, ss, id);
  }

  // ---------------------------------------------------------------- short transactions

  lemma ExecSmall(db: Tables, ss: seq<Statement>)
    ensures |ss| == 0 ==> ExecAll(db, ss) == db
    ensures |ss| == 1 ==> ExecAll(db, ss) == Exec(db, ss[0])
    ensures |ss| == 2 ==> ExecAll(db, ss) == Exec(Exec(db, ss[0]), ss[1])
    ensures |ss| == 3 ==> ExecAll(db, ss) == Exec(Exec(Exec(db, ss[0]), ss[1]), ss[2])
    decreases |ss|
  {
    if 1 < |ss| {
      ExecSmall(Exec(db, ss[0]), ss[1..]);
    }
  }

  lemma InsertIsFresh(db: Tables, id: Identity, fp: Digest)
    ensures Exec(db, InsertIdentity(id, fp)) == ExecAll(db, FreshIdentity(db, id, fp))
  {
    ExecSmall(db, FreshIdentity(db, id, fp));
    if id in db.identities {
      assert db.identities[id := db.identities[id]] == db.identities;
    }
  }

  lemma FreshReadsAlike(db: Tables, id: Identity, fp: Digest, c: Cycle)
    ensures ReadAttempt(ExecAll(db, FreshIdentity(db, id, fp)), c) == ReadAttempt(db, c)
    ensures CounterAt(ExecAll(db, FreshIdentity(db, id, fp)), c) == CounterAt(db, c)
  {
    ExecSmall(db, FreshIdentity(db, id, fp));
  }
}
