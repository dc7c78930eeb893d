/** What an acknowledgement and a dead letter promise: the identity is durably complete, or its attempt
    cycle is durably closed. */
module InboxAcks {
  import opened InboxTables
  import opened BatchRuntime
  import opened InboxAttempt
  import opened InboxBatch
  import opened InboxGroups
  import opened InboxSqliteBatch
  import opened InboxMaintenance
  import opened InboxRows
  import opened Deliveries

  /** A batch leaves every identity as its lead's own transaction would. */
  lemma ResultRows(b: Batch, id: Identity)
    ensures SameRows(b.Result(), ExecAll(b.db, LeadStatements(b, id)), id)
  {
    var f := (i: Identity) => LeadStatements(b, i);
    var ids := IdsAt(b, b.Leads());
    var trace := Concat(ids, f);
    LeadIds(b);
    forall i ensures Project(trace, i) == f(i) {
      forall j, s | s in f(j) ensures Target(s) == j {
        LeadStatementsTarget(b, j);
      }
      ConcatProjection(ids, f, i);
      assert b.Lead(i).None? ==> f(i) == [];
    }
    hide Concat, LeadStatements, Project, Batch.Result, Batch.Leads;
    InterleavingCommitsResult(b, trace, f);
    ExecAllProject(b.db, b.db, trace, id);
    assert f(id) == LeadStatements(b, id);
  }

  lemma SameCompletion(a: Tables, b: Tables, id: Identity, fp: Digest)
    requires SameRows(a, b, id)
    ensures Completed(a, id) <==> Completed(b, id)
    ensures CompletedAs(a, id, fp) <==> CompletedAs(b, id, fp)
  {
    assert Row(a.identities, id) == Row(b.identities, id);
  }

  /** A single attempt that reports no error finds its identity completed with its own content. */
  lemma CleanReplyCompletes(db: Tables, key: Key, fp: Digest, limit: nat, outcome: Outcome, now: Time)
    requires ReplyTo(db, key, fp, limit, outcome).err.None?
    ensures CompletedAs(Attempt(db, key, fp, limit, outcome, now), key.id, fp)
  {
    var d := Decide(db, key, fp, limit);
    if d.Invoke? {
      var first, c := FreshIdentity(db, key.id, fp), CycleOf(key, fp);
      assert Statements(db, key, fp, limit, outcome, now) == first + [Bump(c), MarkComplete(key.id, now)];
      ExecAllAppend(db, first, [Bump(c), MarkComplete(key.id, now)]);
      var mid := ExecAll(db, first);
      InsertIsFresh(db, key.id, fp);
      assert key.id in mid.identities;
      ExecSmall(mid, [Bump(c), MarkComplete(key.id, now)]);
      hide ExecAll, Decide, Statements;
      assert key.id in Exec(mid, Bump(c)).identities;
    }
  }

  lemma AckReply(b: Batch, i: nat)
    requires i < |b.items| && b.limit > 0 && b.OutcomeAt(i).action == ACK
    ensures b.Matches(i)
    ensures ReplyTo(b.db, b.items[i].key, b.items[i].fp, b.limit, b.OutcomeOf(b.items[i].key.id)).err.None?
  {
    hide ReplyTo, Batch.Stored, Batch.Lead;
  }

  /** A batch position is acknowledged only if the committed tables show its identity complete with its
      own content. */
  lemma AckMeansComplete(b: Batch, i: nat)
    requires i < |b.items| && b.limit > 0 && OneGeneration(b.items) && b.OutcomeAt(i).action == ACK
    ensures CompletedAs(b.Result(), b.items[i].key.id, b.items[i].fp)
  {
    AckReply(b, i);
    var item := b.items[i];
    var id := item.key.id;
    LeadOf(b, i);
    hide Batch.Matches, Batch.OutcomeAt, ReplyTo, Attempt, Batch.Result;
    ResultRows(b, id);
    CleanReplyCompletes(b.db, item.key, item.fp, b.limit, b.OutcomeOf(id), b.now);
    SameCompletion(b.Result(), Attempt(b.db, item.key, item.fp, b.limit, b.OutcomeOf(id), b.now), id, item.fp);
  }

  /** A matching delivery has a lead with the same key and fingerprint. */
  lemma LeadOf(b: Batch, i: nat)
    requires i < |b.items| && OneGeneration(b.items) && b.Matches(i)
    ensures var item := b.items[i];
            ExecAll(b.db, LeadStatements(b, item.key.id))
            == Attempt(b.db, item.key, item.fp, b.limit, b.OutcomeOf(item.key.id), b.now)
  {
    var id := b.items[i].key.id;
    b.MatchingSpec(id);
    assert i in b.Matching(id);
    var lead := b.Lead(id).value;
    assert b.items[lead] == b.items[i];
  }

  // ---------------------------------------------------------------- reported attempts

  function AttemptsAt(db: Tables, c: Cycle): nat {
    if CounterOf(db, c).None? then 0 else CounterOf(db, c).value.attempts
  }

  /** The attempt number in a reply is the durable counter of the cycle, whether the handler ran, was
      deferred or was not called. */
  lemma ReplyReportsCounter(db: Tables, key: Key, fp: Digest, limit: nat, outcome: Outcome, now: Time)
    requires RowsOk(db, key.id)
    ensures var reply := ReplyTo(db, key, fp, limit, outcome);
            reply.err == Some(FingerprintConflict) || reply.err == Some(InvalidLimit)
            || reply.attempt == AttemptsAt(Attempt(db, key, fp, limit, outcome, now), CycleOf(key, fp))
  {
    var c, d := CycleOf(key, fp), Decide(db, key, fp, limit);
    DecideByView(db, key, fp, limit);
    AttemptByView(db, key, fp, limit, outcome, now);
    if d.Invoke? || d.Closed? {
      assert Grounded(ViewOf(db, c), c, d, limit);
      hide Attempt, RowsOk, OthersKept, Decide;
    } else {
      NoStatements(db, key, fp, limit, outcome, now);
      hide Attempt, OthersKept;
    }
  }

  lemma SameAttempts(a: Tables, b: Tables, c: Cycle)
    requires SameRows(a, b, c.id)
    ensures AttemptsAt(a, c) == AttemptsAt(b, c)
  {
    ViewLocal(a, b, c);
  }

  /** So is the attempt number that a batch reports for a delivery whose fingerprint matches. */
  lemma OutcomeReportsCounter(b: Batch, i: nat)
    requires i < |b.items| && b.limit > 0 && OneGeneration(b.items) && b.Matches(i) && Inv(b.db)
    ensures b.OutcomeAt(i).attempt == AttemptsAt(b.Result(), CycleOf(b.items[i].key, b.items[i].fp))
  {
    var item := b.items[i];
    RowsOkAt(b.db, item.key.id);
    LeadOf(b, i);
    MatchedReply(b, i);
    hide Batch.Matches, Batch.OutcomeAt, ReplyTo, Attempt, Batch.Result, AttemptsAt, RowsOk, Inv;
    ResultRows(b, item.key.id);
    ReplyReportsCounter(b.db, item.key, item.fp, b.limit, b.OutcomeOf(item.key.id), b.now);
    SameAttempts(b.Result(), Attempt(b.db, item.key, item.fp, b.limit, b.OutcomeOf(item.key.id), b.now),
                 CycleOf(item.key, item.fp));
  }

  lemma MatchedReply(b: Batch, i: nat)
    requires i < |b.items| && b.limit > 0 && b.Matches(i)
    ensures var reply := ReplyTo(b.db, b.items[i].key, b.items[i].fp, b.limit, b.OutcomeOf(b.items[i].key.id));
            && b.OutcomeAt(i).attempt == reply.attempt
            && reply.err != Some(FingerprintConflict) && reply.err != Some(InvalidLimit)
  {
    StoredByRow(b, i);
    hide Batch.Stored, Batch.Lead, Batch.Matches;
  }

  // ---------------------------------------------------------------- closed cycles

  /** The cycle is closed on record, and its hand-off is not confirmed yet. */
  predicate AwaitsHandoff(db: Tables, item: BatchItem) {
    && DecideConfirm(db, item.key, item.fp).ConfirmOk?
    && db.terminal[CycleOf(item.key, item.fp)].confirmedAt.None?
  }

  lemma RecordAwaits(db: Tables, key: Key, fp: Digest, n: nat, kind: CloseKind, now: Time)
    requires key.id in db.identities && db.identities[key.id].fp == fp
    ensures AwaitsHandoff(Exec(db, Record(CycleOf(key, fp), n, kind, now)), BatchItem(key, fp))
  {
  }

  lemma CountersKeepIdentities(db: Tables, s: Statement)
    requires OnCounter(s)
    ensures Exec(db, s).identities == db.identities
  {
  }

  /** Settling ends with a terminal record whenever it closes the cycle. */
  lemma SettleRecords(db: Tables, key: Key, fp: Digest, n: nat, limit: nat, outcome: Outcome, now: Time)
    requires n > 0 && key.id in db.identities && db.identities[key.id].fp == fp
    requires var kind := Classify(outcome).0; kind.KindPermanent? || ((kind.KindRetryAfter? || kind.KindOrdinary?) && n >= limit)
    ensures AwaitsHandoff(ExecAll(db, Settle(CycleOf(key, fp), n, limit, outcome, now)), BatchItem(key, fp))
  {
    var c := CycleOf(key, fp);
    var ss := Settle(c, n, limit, outcome, now);
    ExecSmall(db, ss);
    var bumped := Exec(db, Bump(c));
    CountersKeepIdentities(db, Bump(c));
    CountersKeepIdentities(bumped, MarkTerminal(c));
    hide ExecAll, Exec, AwaitsHandoff;
    if Classify(outcome).0.KindPermanent? {
      RecordAwaits(Exec(bumped, MarkTerminal(c)), key, fp, n, Permanent, now);
    } else {
      RecordAwaits(bumped, key, fp, n, AttemptsExhausted, now);
    }
  }

  /** When the reply of one attempt calls for a dead letter that is to be confirmed, either the cycle was
      closed before, or the handler's failure closes it. */
  lemma DeadReplyCases(db: Tables, key: Key, fp: Digest, limit: nat, outcome: Outcome)
    requires limit > 0
    requires var f := FateOfReply(ReplyTo(db, key, fp, limit, outcome), limit); f.Dead? && f.confirm
    ensures var d := Decide(db, key, fp, limit); var kind := Classify(outcome).0;
            && (d.Closed? || d.Invoke?) && (key.id in db.identities ==> db.identities[key.id].fp == fp)
            && (d.Invoke? ==> d.attempt > 0
                              && (kind.KindPermanent? || ((kind.KindRetryAfter? || kind.KindOrdinary?) && d.attempt >= limit)))
  {
  }

  lemma FreshKnows(db: Tables, id: Identity, fp: Digest)
    requires id in db.identities ==> db.identities[id].fp == fp
    ensures var after := ExecAll(db, FreshIdentity(db, id, fp));
            id in after.identities && after.identities[id].fp == fp
  {
    InsertIsFresh(db, id, fp);
  }

  /** A dead letter that is to be confirmed has its cycle closed on record. */
  lemma ClosedReplyRecords(db: Tables, key: Key, fp: Digest, limit: nat, outcome: Outcome, now: Time)
    requires limit > 0
    requires var f := FateOfReply(ReplyTo(db, key, fp, limit, outcome), limit); f.Dead? && f.confirm
    ensures AwaitsHandoff(Attempt(db, key, fp, limit, outcome, now), BatchItem(key, fp))
  {
    DeadReplyCases(db, key, fp, limit, outcome);
    FreshKnows(db, key.id, fp);
    var d := Decide(db, key, fp, limit);
    var first, c := FreshIdentity(db, key.id, fp), CycleOf(key, fp);
    var mid := ExecAll(db, first);
    hide ExecAll, AwaitsHandoff, FateOfReply, ReplyTo, Decide, FreshIdentity, Settle, Classify;
    match d
    case Closed(n, kind) =>
      ExecAllAppend(db, first, [Record(c, n, kind, now)]);
      ExecSmall(mid, [Record(c, n, kind, now)]);
      RecordAwaits(mid, key, fp, n, kind, now);
    case Invoke(n) =>
      ExecAllAppend(db, first, Settle(c, n, limit, outcome, now));
      SettleRecords(mid, key, fp, n, limit, outcome, now);
    case _ =>
  }

  lemma SameAwaits(a: Tables, b: Tables, item: BatchItem)
    requires SameRows(a, b, item.key.id)
    ensures AwaitsHandoff(a, item) <==> AwaitsHandoff(b, item)
  {
    var c := CycleOf(item.key, item.fp);
    assert c == Cycle(item.key.id, c.fp);
    assert Row(a.identities, item.key.id) == Row(b.identities, item.key.id);
    assert Row(a.terminal, Cycle(item.key.id, c.fp)) == Row(b.terminal, Cycle(item.key.id, c.fp));
  }

  lemma DeadReply(b: Batch, i: nat)
    requires i < |b.items| && b.limit > 0 && b.OutcomeAt(i).action == DLQ && b.OutcomeAt(i).failure.ClosedAs?
    ensures b.Matches(i)
    ensures var item := b.items[i];
            var f := FateOfReply(ReplyTo(b.db, item.key, item.fp, b.limit, b.OutcomeOf(item.key.id)), b.limit);
            f.Dead? && f.confirm
  {
    hide ReplyTo, Batch.Stored, Batch.Lead;
    var item := b.items[i];
    if b.Matches(i) {
      BatchAgreesWithSingle(b.db, item, b.limit, b.OutcomeOf(item.key.id));
    }
  }

  /** A batch position is dead-lettered as closed only if the committed tables show its cycle closed and
      its hand-off open. */
  lemma DeadMeansRecorded(b: Batch, i: nat)
    requires i < |b.items| && b.limit > 0 && OneGeneration(b.items)
    requires b.OutcomeAt(i).action == DLQ && b.OutcomeAt(i).failure.ClosedAs?
    ensures AwaitsHandoff(b.Result(), b.items[i])
  {
    DeadReply(b, i);
    var item := b.items[i];
    LeadOf(b, i);
    hide Batch.Matches, Batch.OutcomeAt, ReplyTo, Attempt, Batch.Result, AwaitsHandoff, FateOfReply;
    ResultRows(b, item.key.id);
    ClosedReplyRecords(b.db, item.key, item.fp, b.limit, b.OutcomeOf(item.key.id), b.now);
    SameAwaits(b.Result(), Attempt(b.db, item.key, item.fp, b.limit, b.OutcomeOf(item.key.id), b.now), item);
  }

  // ---------------------------------------------------------------- the report and the tables say the same

  /** An acknowledgement means a complete identity, a dead letter a closed cycle of an incomplete one, and
      anything else means neither. */
  ghost predicate SaysTables(f: Fate, after: Tables, item: BatchItem) {
    && (f.Ack? <==> Completed(after, item.key.id))
    && (f.Dead? <==> !Completed(after, item.key.id) && CycleOf(item.key, item.fp) in after.terminal)
  }

  /** The fate of a delivery that does not conflict is exactly what its transaction left in the tables. */
  lemma ReplySaysTables(db: Tables, item: BatchItem, limit: nat, outcome: Outcome, now: Time)
    requires RowsOk(db, item.key.id) && limit > 0
    requires item.key.id in db.identities ==> db.identities[item.key.id].fp == item.fp
    ensures SaysTables(FateOfReply(ReplyTo(db, item.key, item.fp, limit, outcome), limit),
                       Attempt(db, item.key, item.fp, limit, outcome, now), item)
  {
    var c, d := CycleOf(item.key, item.fp), Decide(db, item.key, item.fp, limit);
    DecideByView(db, item.key, item.fp, limit);
    AttemptByView(db, item.key, item.fp, limit, outcome, now);
    if d.Invoke? || d.Closed? {
      assert Grounded(ViewOf(db, c), c, d, limit);
      hide Attempt, RowsOk, OthersKept, Decide, CounterOf;
    } else {
      NoStatements(db, item.key, item.fp, limit, outcome, now);
      hide Attempt, OthersKept, RowsOk;
    }
  }

  lemma SameSaying(f: Fate, a: Tables, b: Tables, item: BatchItem)
    requires SameRows(a, b, item.key.id) && SaysTables(f, a, item)
    ensures SaysTables(f, b, item)
  {
    var c := CycleOf(item.key, item.fp);
    assert c == Cycle(item.key.id, c.fp);
    SameCompletion(a, b, item.key.id, item.fp);
    assert Row(a.terminal, Cycle(item.key.id, c.fp)) == Row(b.terminal, Cycle(item.key.id, c.fp));
  }

  /** So is the fate that a batch report gives to every position that does not conflict, lead or follower. */
  lemma OutcomeSaysTables(b: Batch, i: nat)
    requires i < |b.items| && b.limit > 0 && OneGeneration(b.items) && b.Matches(i) && Inv(b.db)
    ensures SaysTables(FateOf(b.OutcomeAt(i)), b.Result(), b.items[i])
  {
    var item := b.items[i];
    RowsOkAt(b.db, item.key.id);
    StoredByRow(b, i);
    LeadOf(b, i);
    FollowerFate(b, i);
    hide Batch.Matches, Batch.OutcomeAt, ReplyTo, Attempt, Batch.Result, RowsOk, Inv, SaysTables, FateOf, FateOfReply;
    ResultRows(b, item.key.id);
    ReplySaysTables(b.db, item, b.limit, b.OutcomeOf(item.key.id), b.now);
    SameSaying(FateOf(b.OutcomeAt(i)), Attempt(b.db, item.key, item.fp, b.limit, b.OutcomeOf(item.key.id), b.now),
               b.Result(), item);
  }

  lemma FollowerFate(b: Batch, i: nat)
    requires i < |b.items| && b.limit > 0 && b.Matches(i)
    ensures var item := b.items[i];
            FateOf(b.OutcomeAt(i))
            == FateOfReply(ReplyTo(b.db, item.key, item.fp, b.limit, b.OutcomeOf(item.key.id)), b.limit)
  {
    var item := b.items[i];
    BatchAgreesWithSingle(b.db, item, b.limit, b.OutcomeOf(item.key.id));
    FromReplyCopied(item, ReplyTo(b.db, item.key, item.fp, b.limit, b.OutcomeOf(item.key.id)), b.limit);
    hide ReplyTo, Batch.Stored, Batch.Lead, Batch.Matches;
  }
}
