/** The operations beside attempt processing: plain Process, the destructive
    reset, handoff confirmation and the two retention sweeps. */
module InboxMaintenance {
  import opened InboxTables
  import opened BatchRuntime
  import opened InboxAttempt
  import opened InboxRows

  // ------------------------------------------------------------ plain Process

  datatype Entry = EntryConflict | EntryDuplicate | EntryTerminal | EntryTracked | EntryRun

  predicate AnyTerminal(db: Tables, id: Identity) {
    || (id in db.legacy && db.legacy[id].terminal)
    || exists c | c in db.generations :: c.id == id && db.generations[c].terminal
  }

  /** Admission of a plain Process call, as the insert and the inspection of an existing identity decide it. */
  function DecideProcess(db: Tables, id: Identity, fp: Digest): Entry {
    if id !in db.identities then EntryRun
    else if db.identities[id].fp != fp then EntryConflict
    else if db.identities[id].completedAt.Some? then EntryDuplicate
    else if HasAttempts(db, id) then if AnyTerminal(db, id) then EntryTerminal else EntryTracked
    else EntryRun
  }

  function ProcessStatements(db: Tables, id: Identity, fp: Digest, outcome: Outcome, now: Time): seq<Statement> {
    if DecideProcess(db, id, fp).EntryRun? && outcome.Success?
    then FreshIdentity(db, id, fp) + [MarkComplete(id, now)]
    else []
  }

  function Process(db: Tables, id: Identity, fp: Digest, outcome: Outcome, now: Time): Tables {
    ExecAll(db, ProcessStatements(db, id, fp, outcome, now))
  }

  /** A plain Process call never runs its handler on an identity that exists and is incomplete. */
  lemma ProcessNeverResumes(db: Tables, id: Identity, fp: Digest)
    requires Inv(db)
    ensures DecideProcess(db, id, fp).EntryRun? <==> id !in db.identities
  {
    assert RowsOk(db, id);
  }

  lemma ProcessEffect(db: Tables, id: Identity, fp: Digest, outcome: Outcome, now: Time)
    requires Inv(db)
    ensures Process(db, id, fp, outcome, now)
            == if id !in db.identities && outcome.Success?
               then db.(identities := db.identities[id := IdentityRow(fp, Some(now))]) else db
  {
    ProcessNeverResumes(db, id, fp);
    if id !in db.identities && outcome.Success? {
      var mid := Exec(db, InsertIdentity(id, fp));
      assert ProcessStatements(db, id, fp, outcome, now) == [InsertIdentity(id, fp), MarkComplete(id, now)];
      assert Process(db, id, fp, outcome, now) == ExecAll(mid, [MarkComplete(id, now)]);
      assert ExecAll(mid, [MarkComplete(id, now)]) == Exec(mid, MarkComplete(id, now));
      assert mid.identities[id := IdentityRow(fp, Some(now))] == db.identities[id := IdentityRow(fp, Some(now))];
    }
  }

  lemma ProcessKeepsRows(db: Tables, id: Identity, fp: Digest, outcome: Outcome, now: Time)
    requires Inv(db)
    ensures Inv(Process(db, id, fp, outcome, now))
  {
    ProcessEffect(db, id, fp, outcome, now);
    if id !in db.identities && outcome.Success? {
      var after := Process(db, id, fp, outcome, now);
      forall i ensures RowsOk(after, i) {
        assert RowsOk(db, i);
        if i != id {
          assert SameRows(db, after, i);
          RowsOkLocal(db, after, i);
        } else {
          forall d ensures ViewOk(ViewOf(after, Cycle(id, d)), Cycle(id, d)) {
            assert ViewOk(ViewOf(db, Cycle(id, d)), Cycle(id, d));
          }
        }
      }
    }
  }

  // ------------------------------------------------------------ removing one cycle

  /** Deletes a cycle's terminal marker and the attempt rows filed under its fingerprint. */
  function DropCycle(db: Tables, c: Cycle): Tables {
    db.(terminal := db.terminal - {c},
        legacy := if c.id in db.legacy && db.legacy[c.id].fp == c.fp then db.legacy - {c.id} else db.legacy,
        generations := db.generations - {c})
  }

  predicate HasTerminal(db: Tables, id: Identity) {
    exists c | c in db.terminal :: c.id == id
  }

  lemma DropKeepsOthers(db: Tables, c: Cycle)
    ensures OthersKept(db, DropCycle(db, c), c) || (c.fp.Base? && c in db.generations) || (c.fp.Gen? && c.id in db.legacy && db.legacy[c.id].fp == c.fp)
  {
    var after := DropCycle(db, c);
    if c.fp.Base? && c !in db.generations {
      assert db.generations - {c} == db.generations;
      forall e | e != c ensures CounterOf(db, e) == CounterOf(after, e) {
      }
      assert OthersKept(db, after, c);
    } else if c.fp.Gen? && !(c.id in db.legacy && db.legacy[c.id].fp == c.fp) {
      assert OthersKept(db, after, c);
    }
  }

  /** Deletes the identity row once no attempt row of any kind is left. */
  function DropEmptyIdentity(db: Tables, id: Identity): Tables {
    if HasAttempts(db, id) || HasTerminal(db, id) || Completed(db, id) then db
    else db.(identities := db.identities - {id})
  }

  function RemoveCycle(db: Tables, c: Cycle): Tables {
    DropEmptyIdentity(DropCycle(db, c), c.id)
  }

  /** Removing a cycle touches nothing else, and takes the identity away only with its last row. */
  lemma RemoveCycleKeepsRows(db: Tables, c: Cycle)
    requires Inv(db) && c.id in db.identities && !Completed(db, c.id)
    requires c.fp.digest == db.identities[c.id].fp
    ensures Inv(RemoveCycle(db, c))
    ensures OthersKept(db, RemoveCycle(db, c), c)
    ensures ViewOf(RemoveCycle(db, c), c).counter.None? && c !in RemoveCycle(db, c).terminal
    ensures RemoveCycle(db, c).identities ==
              if HasAttempts(DropCycle(db, c), c.id) then db.identities else db.identities - {c.id}
  {
    var mid := DropCycle(db, c);
    var after := RemoveCycle(db, c);
    DropCycleCase(db, c);
    assert RowsOk(db, c.id);
    hide RowsOk, DropCycle, Inv;
    assert OthersKept(db, after, c) && ViewOf(after, c).counter.None?;
    assert HasAttempts(mid, c.id) <==> HasAttempts(after, c.id);
    BaseHasNoGeneration(db, after, c);
    hide OthersKept, HasAttempts;
    CycleChangeKeepsRows(db, after, c);
  }

  /** Dropping a cycle: only its own rows go, and no terminal marker is left without an attempt row. */
  lemma DropCycleCase(db: Tables, c: Cycle)
    requires Inv(db) && c.id in db.identities && c.fp.digest == db.identities[c.id].fp
    ensures var mid := DropCycle(db, c);
            && OthersKept(db, mid, c) && mid.identities == db.identities && Fits(mid, c)
            && CounterOf(mid, c).None? && c !in mid.terminal
            && (HasTerminal(mid, c.id) ==> HasAttempts(mid, c.id))
  {
    assert RowsOk(db, c.id);
    assert c == Cycle(c.id, c.fp);
    assert ViewOk(ViewOf(db, c), c);
    var mid := DropCycle(db, c);
    DropKeepsOthers(db, c);
    if HasTerminal(mid, c.id) {
      var e :| e in mid.terminal && e.id == c.id;
      assert e == Cycle(c.id, e.fp);
      assert ViewOk(ViewOf(db, e), e);
      assert CounterOf(mid, e).Some?;
      CounterMeansAttempts(mid, e);
    }
  }

  // ------------------------------------------------------------ ForgetAttempt

  datatype ForgetReply = ForgetOk | ForgetConflict

  predicate Forgets(db: Tables, key: Key, fp: Digest) {
    key.id in db.identities && db.identities[key.id] == IdentityRow(fp, None)
  }

  /** Explicit reset of one incomplete cycle; the legacy row is deleted by identity alone. */
  function Forget(db: Tables, key: Key, fp: Digest): Tables {
    var c := CycleOf(key, fp);
    if !Forgets(db, key, fp) then db
    else
      var t := db.(terminal := db.terminal - {c});
      var u := if key.generation == "" then t.(legacy := t.legacy - {key.id})
               else t.(generations := t.generations - {c});
      if HasAttempts(u, key.id) then u else u.(identities := u.identities - {key.id})
  }

  lemma ForgetRemovesCycle(db: Tables, key: Key, fp: Digest)
    requires Inv(db) && Forgets(db, key, fp)
    ensures Forget(db, key, fp) == RemoveCycle(db, CycleOf(key, fp))
  {
    var c := CycleOf(key, fp);
    assert RowsOk(db, key.id);
    assert c == Cycle(key.id, c.fp);
    if c.fp.Base? {
      assert db.generations - {c} == db.generations;
      if key.id !in db.legacy {
        assert db.legacy - {key.id} == db.legacy;
      }
    }
    RemoveCycleKeepsRows(db, c);
  }

  // ------------------------------------------------------------ handoff confirmation

  datatype ConfirmReply = ConfirmOk | ConfirmMissing | ConfirmConflict

  function DecideConfirm(db: Tables, key: Key, fp: Digest): ConfirmReply {
    if key.id !in db.identities then ConfirmMissing
    else if db.identities[key.id].fp != fp then ConfirmConflict
    else if CycleOf(key, fp) in db.terminal then ConfirmOk
    else ConfirmMissing
  }

  function Latest(x: Option<Time>, t: Time): Time {
    if x.Some? && x.value > t then x.value else t
  }

  function Confirm(db: Tables, key: Key, fp: Digest, now: Time): Tables {
    var c := CycleOf(key, fp);
    if DecideConfirm(db, key, fp).ConfirmOk?
    then db.(terminal := db.terminal[c := db.terminal[c].(confirmedAt := Some(Latest(db.terminal[c].confirmedAt, now)))])
    else db
  }

  lemma ConfirmKeepsRows(db: Tables, key: Key, fp: Digest, now: Time)
    requires Inv(db)
    ensures Inv(Confirm(db, key, fp, now))
    ensures OthersKept(db, Confirm(db, key, fp, now), CycleOf(key, fp))
  {
    var c := CycleOf(key, fp);
    var after := Confirm(db, key, fp, now);
    if DecideConfirm(db, key, fp).ConfirmOk? {
      assert RowsOk(db, key.id);
      assert c == Cycle(key.id, c.fp);
      assert ViewOk(ViewOf(db, c), c);
      assert OthersKept(db, after, c);
      assert HasAttempts(db, c.id) <==> HasAttempts(after, c.id);
      CycleChangeKeepsRows(db, after, c);
    }
  }

  // ------------------------------------------------------------ retention sweeps

  predicate Expired(db: Tables, id: Identity, before: Time) {
    id in db.identities && db.identities[id].completedAt.Some? && db.identities[id].completedAt.value < before
  }

  /** The oldest completed identities before the cutoff, at most limit of them. */
  ghost predicate IsPruneBatch(db: Tables, before: Time, limit: nat, doomed: set<Identity>) {
    && (forall id | id in doomed :: Expired(db, id, before))
    && |doomed| <= limit
    && (|doomed| < limit ==> forall id :: Expired(db, id, before) ==> id in doomed)
    && (forall id, kept :: id in doomed && Expired(db, kept, before) && kept !in doomed ==>
          db.identities[id].completedAt.value <= db.identities[kept].completedAt.value)
  }

  /** Deletes every row of the doomed identities from all four tables. */
  function Prune(db: Tables, doomed: set<Identity>): Tables {
    Tables(map id | id in db.identities && id !in doomed :: db.identities[id],
           map id | id in db.legacy && id !in doomed :: db.legacy[id],
           map c | c in db.generations && c.id !in doomed :: db.generations[c],
           map c | c in db.terminal && c.id !in doomed :: db.terminal[c])
  }

  lemma PruneFrame(db: Tables, doomed: set<Identity>, id: Identity)
    ensures SameRows(Prune(db, doomed), if id in doomed then EMPTY else db, id)
  {
  }

  lemma PruneKeepsRows(db: Tables, doomed: set<Identity>)
    requires Inv(db)
    ensures Inv(Prune(db, doomed))
  {
    EmptyInv();
    forall id ensures RowsOk(Prune(db, doomed), id) {
      PruneFrame(db, doomed, id);
      var from := if id in doomed then EMPTY else db;
      assert RowsOk(from, id);
      assert SameRows(from, Prune(db, doomed), id);
      RowsOkLocal(from, Prune(db, doomed), id);
    }
  }

  /** A candidate is removed only if, under its identity lock, it is still closed, incomplete and
      confirmed before the cutoff. */
  predicate Prunable(db: Tables, c: Cycle, before: Time) {
    && c.id in db.identities && db.identities[c.id].completedAt.None?
    && c in db.terminal && db.terminal[c].confirmedAt.Some? && db.terminal[c].confirmedAt.value < before
  }

  function PruneCandidate(db: Tables, c: Cycle, before: Time): Tables {
    if Prunable(db, c, before) then RemoveCycle(db, c) else db
  }

  function PruneTerminal(db: Tables, candidates: seq<Cycle>, before: Time): Tables
    decreases |candidates|
  {
    if candidates == [] then db
    else PruneTerminal(PruneCandidate(db, candidates[0], before), candidates[1..], before)
  }

  lemma PruneCandidateKeepsRows(db: Tables, c: Cycle, before: Time)
    requires Inv(db)
    ensures Inv(PruneCandidate(db, c, before))
  {
    if Prunable(db, c, before) {
      PrunableFits(db, c, before);
      RemoveCycleKeepsRows(db, c);
    }
  }

  lemma PrunableFits(db: Tables, c: Cycle, before: Time)
    requires Inv(db) && Prunable(db, c, before)
    ensures c.fp.digest == db.identities[c.id].fp
  {
    assert RowsOk(db, c.id);
    assert c == Cycle(c.id, c.fp);
    assert ViewOk(ViewOf(db, c), c);
  }
}
