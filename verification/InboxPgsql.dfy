/** The PostgreSQL backend: its single attempt skips reading the attempt row of an identity that the same
    transaction has just inserted, its batch works in sets. */
module InboxPgsql {
  import opened InboxTables
  import opened BatchRuntime
  import opened InboxAttempt
  import opened InboxRows
  import opened InboxBatch
  import opened InboxBatchStore
  import InboxPgsqlBatch
  import InboxSqlite

  const FIRST := Next(1, false, false, false)

  /** The shortcut takes the decision that reading the row would have taken, and its plain INSERT
      finds the primary key free, exactly if no attempt row outlived its identity row. */
  lemma FreshShortcut(db: Tables, c: Cycle, limit: nat)
    requires limit > 0
    ensures NextAttempt(ReadAttempt(db, c), limit) == FIRST <==> CounterAt(db, c).None?
  {
  }

  lemma NoRowOutlivesIdentity(db: Tables, c: Cycle)
    requires Inv(db) && c.id !in db.identities
    ensures CounterAt(db, c).None?
  {
    assert RowsOk(db, c.id);
    assert c == Cycle(c.id, c.fp);
    assert ViewOk(ViewOf(db, c), c);
  }

  class Backend {
    var db: Tables

    constructor()
      ensures db == EMPTY && Inv(db)
    {
      db := EMPTY;
      new;
      EmptyInv();
    }

    /** Same tables, reply and handler decision as the backend that always reads the row. */
    method ProcessAttempt(key: Key, fp: Digest, limit: nat, outcome: Outcome, now: Time)
      returns (reply: Reply, invoked: bool)
      requires Inv(db)
      modifies this
      ensures Inv(db)
      ensures db == Attempt(old(db), key, fp, limit, outcome, now)
      ensures reply == ReplyTo(old(db), key, fp, limit, outcome)
      ensures invoked <==> Decide(old(db), key, fp, limit).Invoke?
    {
      AttemptKeepsRows(db, key, fp, limit, outcome, now);
      hide Inv, RowsOk;
      if limit == 0 {
        return Reply(false, 0, Some(InvalidLimit)), false;
      }
      var c := CycleOf(key, fp);
      var fresh_ := key.id !in db.identities;
      var tx, answer := InboxSqlite.PrepareAttemptIdentity(db, key, fp);
      if answer.Some? {
        if answer.value.duplicate {
          ExecSmall(db, FreshIdentity(db, key.id, fp));
          db := tx;
        }
        return answer.value, false;
      }
      FreshReadsAlike(db, key.id, fp, c);
      var next := FIRST;
      if !fresh_ {
        next := NextAttempt(ReadAttempt(tx, c), limit);
      } else {
        NoRowOutlivesIdentity(db, c);
        FreshShortcut(db, c, limit);
      }
      if next.terminal || next.exhausted {
        var record := Record(c, next.attempt, if next.terminal then Permanent else AttemptsExhausted, now);
        ExecAllAppend(db, FreshIdentity(db, key.id, fp), [record]);
        ExecSmall(tx, [record]);
        db := Exec(tx, record);
        return Reply(false, next.attempt, Some(if next.terminal then AttemptTerminal else AttemptsSpent)), false;
      }
      ExecAllAppend(db, FreshIdentity(db, key.id, fp), Settle(c, next.attempt, limit, outcome, now));
      tx, reply := InboxSqlite.RunHandler(tx, c, next.attempt, next.present, limit, outcome, now);
      db := tx;
      invoked := true;
    }

    method ProcessBatchAttempt(items: seq<BatchItem>, limit: nat, handler: BatchHandler, now: Time)
      returns (report: BatchReport)
      modifies this
      ensures (db, report) == RunBatch(old(db), items, limit, handler, now)
    {
      var tx;
      tx, report := InboxPgsqlBatch.ProcessBatchInSets(db, items, limit, handler, now);
      db := tx;
    }
  }
}
