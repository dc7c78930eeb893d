/** The SQLite backend's transactions on single deliveries, statement by
    statement. A transaction works on a local copy of the tables; commit
    assigns the copy back, rollback drops it. */
module InboxSqlite {
  import opened InboxTables
  import opened BatchRuntime
  import opened InboxAttempt
  import opened InboxRows
  import opened InboxMaintenance
  import opened InboxBatch
  import opened InboxBatchStore

  /** INSERT of a first attempt row; the primary key must be free. */
  function InsertAttempt(db: Tables, c: Cycle): Tables
    requires CounterAt(db, c).None?
  {
    if c.fp.Base? then db.(legacy := db.legacy[c.id := LegacyRow(c.fp, 1, false)])
    else db.(generations := db.generations[c := CounterRow(1, false)])
  }

  /** UPDATE ... SET attempts = attempts + 1. */
  function IncrementAttempt(db: Tables, c: Cycle): Tables {
    if c.fp.Base? then
      if c.id in db.legacy
      then db.(legacy := db.legacy[c.id := db.legacy[c.id].(attempts := db.legacy[c.id].attempts + 1)])
      else db
    else if c in db.generations
    then db.(generations := db.generations[c := db.generations[c].(attempts := db.generations[c].attempts + 1)])
    else db
  }

  method ConsumeAttempt(tx: Tables, c: Cycle, exists_: bool) returns (r: Tables)
    requires exists_ <==> CounterAt(tx, c).Some?
    ensures r == Exec(tx, Bump(c))
  {
    if !exists_ {
      r := InsertAttempt(tx, c);
    } else {
      r := IncrementAttempt(tx, c);
    }
  }

  method FinishFailedAttempt(tx: Tables, c: Cycle, attempt: nat, exists_: bool, limit: nat, failure: Failure, now: Time)
    returns (r: Tables, reported: nat)
    requires attempt > 0 && (exists_ <==> CounterAt(tx, c).Some?)
    ensures r == ExecAll(tx, Settle(c, attempt, limit, Failed(failure), now))
    ensures reported == if Classify(Failed(failure)).0.KindDefer? then attempt - 1 else attempt
  {
    ExecSmall(tx, Settle(c, attempt, limit, Failed(failure), now));
    r := tx;
    if failure.deferDelay.Some? && !failure.permanent {
      if attempt - 1 == 0 {
        r := Exec(r, PreserveZero(c));
      }
      return r, attempt - 1;
    }
    r := ConsumeAttempt(r, c, exists_);
    if failure.permanent {
      r := Exec(r, MarkTerminal(c));
    }
    if failure.permanent || attempt >= limit {
      r := Exec(r, Record(c, attempt, if failure.permanent then Permanent else AttemptsExhausted, now));
    }
    reported := attempt;
  }

  /** Inserts or reads the identity; an answer means that the delivery needs no handler. */
  method PrepareAttemptIdentity(from: Tables, key: Key, fp: Digest) returns (tx: Tables, answer: Option<Reply>)
    ensures tx == ExecAll(from, FreshIdentity(from, key.id, fp))
    ensures answer == if key.id in from.identities && from.identities[key.id].fp != fp
                      then Some(Reply(false, 0, Some(FingerprintConflict)))
                      else if Completed(from, key.id)
                      then var state := ReadAttempt(from, CycleOf(key, fp));
                           Some(Reply(true, if state.Some? then state.value.attempts else 0, None))
                      else None
  {
    var inserted := key.id !in from.identities;
    tx := Exec(from, InsertIdentity(key.id, fp));
    InsertIsFresh(from, key.id, fp);
    if inserted {
      return tx, None;
    }
    ExecSmall(from, FreshIdentity(from, key.id, fp));
    var stored := tx.identities[key.id];
    if stored.fp != fp {
      return tx, Some(Reply(false, 0, Some(FingerprintConflict)));
    }
    if stored.completedAt.None? {
      return tx, None;
    }
    var state := ReadAttempt(tx, CycleOf(key, fp));
    answer := Some(Reply(true, if state.Some? then state.value.attempts else 0, None));
  }

  /** Runs the handler and settles its outcome inside the transaction. */
  method RunHandler(from: Tables, c: Cycle, attempt: nat, present: bool, limit: nat, outcome: Outcome, now: Time)
    returns (tx: Tables, reply: Reply)
    requires attempt > 0 && (present <==> CounterAt(from, c).Some?)
    ensures tx == ExecAll(from, Settle(c, attempt, limit, outcome, now))
    ensures reply == if outcome.Success? then Reply(false, attempt, None)
                     else Reply(false, if Classify(outcome).0.KindDefer? then attempt - 1 else attempt,
                                Some(HandlerError(outcome.failure)))
  {
    if outcome.Failed? {
      var reported;
      tx, reported := FinishFailedAttempt(from, c, attempt, present, limit, outcome.failure, now);
      return tx, Reply(false, reported, Some(HandlerError(outcome.failure)));
    }
    ExecSmall(from, Settle(c, attempt, limit, outcome, now));
    tx := ConsumeAttempt(from, c, present);
    tx := Exec(tx, MarkComplete(c.id, now));
    reply := Reply(false, attempt, None);
  }

  class Backend {
    var db: Tables

    constructor()
      ensures db == EMPTY
    {
      db := EMPTY;
    }

    /** One bounded handler attempt; outcome is what the handler returns if it is called. */
    method ProcessAttempt(key: Key, fp: Digest, limit: nat, outcome: Outcome, now: Time)
      returns (reply: Reply, invoked: bool)
      modifies this
      ensures db == Attempt(old(db), key, fp, limit, outcome, now)
      ensures reply == ReplyTo(old(db), key, fp, limit, outcome)
      ensures invoked <==> Decide(old(db), key, fp, limit).Invoke?
    {
      if limit == 0 {
        return Reply(false, 0, Some(InvalidLimit)), false;
      }
      var c := CycleOf(key, fp);
      var tx, answer := PrepareAttemptIdentity(db, key, fp);
      if answer.Some? {
        if answer.value.duplicate {
          ExecSmall(db, FreshIdentity(db, key.id, fp));
          db := tx;
        }
        return answer.value, false;
      }
      FreshReadsAlike(db, key.id, fp, c);
      var next := NextAttempt(ReadAttempt(tx, c), limit);
      if next.terminal || next.exhausted {
        var record := Record(c, next.attempt, if next.terminal then Permanent else AttemptsExhausted, now);
        ExecAllAppend(db, FreshIdentity(db, key.id, fp), [record]);
        ExecSmall(tx, [record]);
        db := Exec(tx, record);
        return Reply(false, next.attempt, Some(if next.terminal then AttemptTerminal else AttemptsSpent)), false;
      }
      ExecAllAppend(db, FreshIdentity(db, key.id, fp), Settle(c, next.attempt, limit, outcome, now));
      tx, reply := RunHandler(tx, c, next.attempt, next.present, limit, outcome, now);
      db := tx;
      invoked := true;
    }

    /** One batch; handler is what the application's batch handler answers to the items it is shown. */
    method ProcessBatchAttempt(items: seq<BatchItem>, limit: nat, handler: BatchHandler, now: Time)
      returns (report: BatchReport)
      modifies this
      ensures (db, report) == RunBatch(old(db), items, limit, handler, now)
    {
      var tx;
      tx, report := ProcessBatch(db, items, limit, handler, now);
      db := tx;
    }

    /** Plain processing without attempt accounting; a failed handler rolls everything back. */
    method ProcessOnce(id: Identity, fp: Digest, outcome: Outcome, now: Time) returns (entry: Entry)
      modifies this
      ensures db == Process(old(db), id, fp, outcome, now)
      ensures entry == DecideProcess(old(db), id, fp)
    {
      var inserted := id !in db.identities;
      var tx := Exec(db, InsertIdentity(id, fp));
      InsertIsFresh(db, id, fp);
      ExecSmall(db, FreshIdentity(db, id, fp));
      if !inserted {
        var stored := tx.identities[id];
        if stored.fp != fp {
          return EntryConflict;
        }
        if stored.completedAt.Some? {
          db := tx;
          return EntryDuplicate;
        }
        if HasAttempts(tx, id) {
          return if AnyTerminal(tx, id) then EntryTerminal else EntryTracked;
        }
      }
      entry := EntryRun;
      if outcome.Failed? {
        return;
      }
      ExecAllAppend(db, FreshIdentity(db, id, fp), [MarkComplete(id, now)]);
      ExecSmall(tx, [MarkComplete(id, now)]);
      db := Exec(tx, MarkComplete(id, now));
    }

    method ForgetAttempt(key: Key, fp: Digest) returns (reply: ForgetReply)
      modifies this
      ensures db == Forget(old(db), key, fp)
      ensures reply.ForgetConflict? <==> key.id in old(db).identities && old(db).identities[key.id].fp != fp
      ensures if Forgets(old(db), key, fp) then Forgotten(old(db), db, key, fp) else db == old(db)
    {
      if Inv(db) && Forgets(db, key, fp) {
        ForgetsOnlyCycle(db, key, fp);
      }
      if key.id !in db.identities {
        return ForgetOk;
      }
      var stored := db.identities[key.id];
      if stored.fp != fp {
        return ForgetConflict;
      }
      reply := ForgetOk;
      if stored.completedAt.Some? {
        return;
      }
      var c := CycleOf(key, fp);
      var tx := db.(terminal := db.terminal - {c});
      if key.generation == "" {
        tx := tx.(legacy := tx.legacy - {key.id});
      } else {
        tx := tx.(generations := tx.generations - {c});
      }
      if !HasAttempts(tx, key.id) {
        tx := tx.(identities := tx.identities - {key.id});
      }
      db := tx;
    }

    method ConfirmTerminalHandoff(key: Key, fp: Digest, now: Time) returns (reply: ConfirmReply)
      modifies this
      ensures db == Confirm(old(db), key, fp, now)
      ensures reply == DecideConfirm(old(db), key, fp)
      ensures if reply.ConfirmOk? then HandoffConfirmed(old(db), db, CycleOf(key, fp), now) else db == old(db)
    {
      if key.id !in db.identities {
        return ConfirmMissing;
      }
      if db.identities[key.id].fp != fp {
        return ConfirmConflict;
      }
      var c := CycleOf(key, fp);
      if c !in db.terminal {
        return ConfirmMissing;
      }
      var row := db.terminal[c];
      var at := if row.confirmedAt.Some? && row.confirmedAt.value > now then row.confirmedAt.value else now;
      db := db.(terminal := db.terminal[c := row.(confirmedAt := Some(at))]);
      reply := ConfirmOk;
    }

    /** Deletes the selected completed identities and all their rows; doomed is what the
        ORDER BY completed_at ... LIMIT subquery of every delete statement selects. */
    method PruneCompleted(before: Time, limit: nat, doomed: set<Identity>) returns (removed: nat)
      requires IsPruneBatch(db, before, limit, doomed)
      modifies this
      ensures db == Prune(old(db), doomed)
      ensures removed == |doomed| <= limit
      ensures forall id :: SameRows(db, if id in doomed then EMPTY else old(db), id)
    {
      forall id ensures SameRows(Prune(db, doomed), if id in doomed then EMPTY else db, id) {
        PruneFrame(db, doomed, id);
      }
      var tx := db;
      tx := tx.(terminal := map c | c in tx.terminal && c.id !in doomed :: tx.terminal[c]);
      tx := tx.(generations := map c | c in tx.generations && c.id !in doomed :: tx.generations[c]);
      tx := tx.(legacy := map id | id in tx.legacy && id !in doomed :: tx.legacy[id]);
      tx := tx.(identities := map id | id in tx.identities && id !in doomed :: tx.identities[id]);
      db := tx;
      removed := |doomed|;
    }

    /** Terminal retention over a candidate list that may be stale by the time each identity is locked. */
    method PruneTerminalAttempts(before: Time, limit: nat, candidates: seq<Cycle>) returns (removed: nat)
      requires |candidates| <= limit
      modifies this
      ensures db == PruneTerminal(old(db), candidates, before)
      ensures removed <= limit && |db.terminal| + removed == |old(db).terminal|
    {
      var tx := db;
      removed := 0;
      for i := 0 to |candidates|
        invariant PruneTerminal(tx, candidates[i..], before) == PruneTerminal(old(db), candidates, before)
        invariant removed <= i && |tx.terminal| + removed == |old(db).terminal|
        invariant db == old(db)
      {
        var count;
        assert candidates[i..][1..] == candidates[i + 1..];
        tx, count := PruneLocked(tx, candidates[i], before);
        removed := removed + count;
      }
      db := tx;
    }
  }

  /** The confirmation time of one terminal cycle moved forward, to now at least; nothing else changed. */
  ghost predicate HandoffConfirmed(from: Tables, db: Tables, c: Cycle, now: Time) {
    && c in from.terminal && c in db.terminal && db.terminal[c].confirmedAt.Some?
    && (var at := db.terminal[c].confirmedAt.value;
        now <= at && (from.terminal[c].confirmedAt.Some? ==> from.terminal[c].confirmedAt.value <= at)
        && (at == now || from.terminal[c].confirmedAt == Some(at)))
    && db == from.(terminal := db.terminal) && db.terminal.Keys == from.terminal.Keys
    && (forall x | x in db.terminal && x != c :: db.terminal[x] == from.terminal[x])
    && db.terminal[c] == from.terminal[c].(confirmedAt := db.terminal[c].confirmedAt)
  }

  /** One cycle's counter and terminal marker are gone, every other cycle keeps its rows, and the identity
      stays exactly as long as some attempt row of it does. */
  ghost predicate Forgotten(from: Tables, db: Tables, key: Key, fp: Digest) {
    var c := CycleOf(key, fp);
    && c !in db.terminal && (key.generation == "" ==> key.id !in db.legacy) && (key.generation != "" ==> c !in db.generations)
    && (key.id in db.identities <==> HasAttempts(db, key.id))
    && (Inv(from) ==> OthersKept(from, db, c) && CounterOf(db, c).None?)
  }

  lemma ForgetsOnlyCycle(from: Tables, key: Key, fp: Digest)
    requires Inv(from) && Forgets(from, key, fp)
    ensures var db, c := Forget(from, key, fp), CycleOf(key, fp);
            OthersKept(from, db, c) && CounterOf(db, c).None?
  {
    var c := CycleOf(key, fp);
    ForgetRemovesCycle(from, key, fp);
    RemoveCycleKeepsRows(from, c);
  }

  /** One candidate, re-checked under its identity lock. */
  method PruneLocked(from: Tables, c: Cycle, before: Time) returns (tx: Tables, removed: nat)
    ensures tx == PruneCandidate(from, c, before)
    ensures removed == if Prunable(from, c, before) then 1 else 0
    ensures |tx.terminal| + removed == |from.terminal|
  {
    tx, removed := from, 0;
    if c.id !in from.identities || from.identities[c.id].completedAt.Some? {
      return;
    }
    if c !in from.terminal || from.terminal[c].confirmedAt.None? || from.terminal[c].confirmedAt.value >= before {
      return;
    }
    tx := tx.(terminal := tx.terminal - {c});
    assert from.terminal.Keys == tx.terminal.Keys + {c};
    if c.id in tx.legacy && tx.legacy[c.id].fp == c.fp {
      tx := tx.(legacy := tx.legacy - {c.id});
    }
    tx := tx.(generations := tx.generations - {c});
    if !HasAttempts(tx, c.id) && !HasTerminal(tx, c.id) && !Completed(tx, c.id) {
      tx := tx.(identities := tx.identities - {c.id});
    }
    removed := 1;
  }
}
