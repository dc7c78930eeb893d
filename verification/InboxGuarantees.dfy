/** What every history of the Inbox guarantees, read off its log alone. */
module InboxGuarantees {
  import opened InboxTables
  import opened BatchRuntime
  import opened InboxAttempt
  import opened InboxMaintenance
  import opened InboxRuns
  import opened InboxBatch
  import InboxRows

  lemma PrefixGrows(log: seq<Event>, n: nat)
    requires n < |log|
    ensures forall c :: PastOf(log[..n + 1], c) == PastAfter(PastOf(log[..n], c), log[n], c)
    ensures forall id :: Effects(log[..n + 1], id) == EffectsAfter(Effects(log[..n], id), log[n], id)
  {
    LogGrows(log[..n], log[n]);
    assert log[..n + 1] == log[..n] + [log[n]];
  }

  predicate RetiredIn(log: seq<Event>, i: nat, j: nat, id: Identity)
    requires j <= |log|
  {
    exists k | i <= k < j :: log[k].Retired? && id in log[k].ids
  }

  predicate RemovedIn(log: seq<Event>, i: nat, j: nat, c: Cycle)
    requires j <= |log|
  {
    exists k | i <= k < j :: Removes(log[k], c)
  }

  /** An effect is remembered until its identity is retired. */
  lemma {:induction false} EffectRemembered(log: seq<Event>, i: nat, j: nat, id: Identity)
    requires i < j <= |log| && IsEffect(log[i], id) && !RetiredIn(log, i + 1, j, id)
    ensures Effects(log[..j], id) != []
    decreases j
  {
    var n := j - 1;
    PrefixGrows(log, n);
    if i < n {
      EffectRemembered(log, i, n, id);
      assert !(log[n].Retired? && id in log[n].ids);
    }
  }

  /** At most one committed business effect per identity between two retirements, whichever
      generations, operations and batches carried the deliveries. */
  lemma AtMostOneEffect(calls: seq<Call>, i: nat, j: nat, id: Identity)
    requires var log := Run(EMPTY, calls).1;
             i < j < |log| && IsEffect(log[i], id) && IsEffect(log[j], id)
    ensures RetiredIn(Run(EMPTY, calls).1, i + 1, j, id)
  {
    RunLegal(calls);
    var log := Run(EMPTY, calls).1;
    hide Run, Effects;
    assert Legal(log[..j], log[j]);
    if !RetiredIn(log, i + 1, j, id) {
      EffectRemembered(log, i, j, id);
    }
  }

  /** A terminal marker is remembered until the cycle is removed. */
  lemma {:induction false} MarkerRemembered(log: seq<Event>, i: nat, j: nat, c: Cycle)
    requires i < j <= |log| && log[i] == Recorded(c) && !RemovedIn(log, i + 1, j, c)
    ensures PastOf(log[..j], c).marker.Some?
    decreases j
  {
    var n := j - 1;
    PrefixGrows(log, n);
    if i < n {
      MarkerRemembered(log, i, n, c);
      assert !Removes(log[n], c);
    }
  }

  /** A closed cycle is never handed to a handler again, at any limit, until it is removed. */
  lemma ClosedStaysClosed(calls: seq<Call>, i: nat, j: nat, c: Cycle)
    requires var log := Run(EMPTY, calls).1;
             i < j < |log| && log[i] == Recorded(c) && log[j].Ran? && log[j].c == c
    ensures RemovedIn(Run(EMPTY, calls).1, i + 1, j, c)
  {
    RunLegal(calls);
    var log := Run(EMPTY, calls).1;
    hide Run, PastOf;
    assert Legal(log[..j], log[j]);
    if !RemovedIn(log, i + 1, j, c) {
      MarkerRemembered(log, i, j, c);
    }
  }

  /** The recording at position i is the cycle's latest, nothing removed the cycle since, and t is
      the latest of the confirmations that followed it. */
  ghost predicate ConfirmedSince(log: seq<Event>, i: nat, j: nat, c: Cycle, t: Time) {
    && i < j <= |log| && log[i] == Recorded(c)
    && (forall k | i < k < j :: log[k] != Recorded(c) && !Removes(log[k], c))
    && (forall k | i < k < j && log[k].Confirmed? && log[k].c == c :: log[k].at <= t)
    && (exists k | i < k < j :: log[k] == Confirmed(c, t))
  }

  ghost predicate RecordedUnconfirmed(log: seq<Event>, i: nat, j: nat, c: Cycle) {
    && i < j <= |log| && log[i] == Recorded(c)
    && (forall k | i < k < j :: log[k] != Recorded(c) && !Removes(log[k], c) && !(log[k].Confirmed? && log[k].c == c))
  }

  /** What a marker in the fold means about the events. */
  lemma {:induction false} MarkerMeans(log: seq<Event>, j: nat, c: Cycle) returns (i: nat)
    requires j <= |log| && PastOf(log[..j], c).marker.Some?
    ensures PastOf(log[..j], c).marker.value.None? ==> RecordedUnconfirmed(log, i, j, c)
    ensures PastOf(log[..j], c).marker.value.Some? ==>
              ConfirmedSince(log, i, j, c, PastOf(log[..j], c).marker.value.value)
    decreases j
  {
    assert j > 0;
    var n := j - 1;
    PrefixGrows(log, n);
    hide PastOf;
    if log[n] == Recorded(c) {
      i := n;
    } else {
      i := MarkerMeans(log, n, c);
      if log[n].Confirmed? && log[n].c == c {
        var t := PastOf(log[..j], c).marker.value.value;
        assert log[n].at == t || ConfirmedSince(log, i, n, c, t);
      }
    }
  }

  /** Terminal retention removes a cycle only if it was confirmed after its latest recording and
      every such confirmation lies before the cutoff. */
  lemma PrunedWasConfirmed(calls: seq<Call>, j: nat) returns (i: nat, t: Time)
    requires var log := Run(EMPTY, calls).1; j < |log| && log[j].Pruned?
    ensures var log := Run(EMPTY, calls).1; ConfirmedSince(log, i, j, log[j].c, t) && t < log[j].before
  {
    RunLegal(calls);
    var log := Run(EMPTY, calls).1;
    hide Run, PastOf;
    assert Legal(log[..j], log[j]);
    i := MarkerMeans(log, j, log[j].c);
    t := PastOf(log[..j], log[j].c).marker.value.value;
  }

  /** Attempts consumed in the current cycle never exceed the greatest limit under which it ran. */
  lemma {:induction false} ConsumedWithinLimit(log: seq<Event>, j: nat, c: Cycle, bound: nat)
    requires AllLegal(log) && j <= |log|
    requires forall k | 0 <= k < j && log[k].Ran? && log[k].c == c :: log[k].limit <= bound
    ensures PastOf(log[..j], c).consumed <= bound
    decreases j
  {
    hide PastOf;
    if j > 0 {
      var n := j - 1;
      PrefixGrows(log, n);
      ConsumedWithinLimit(log, n, c, bound);
      assert Legal(log[..n], log[n]);
    } else {
      NothingYet(log, c);
    }
  }

  lemma NothingYet(log: seq<Event>, c: Cycle)
    ensures PastOf(log[..0], c) == NOTHING
  {
  }

  /** Every durable counter stays within the greatest configured limit, whatever the history. */
  lemma CounterWithinLimit(calls: seq<Call>, c: Cycle, bound: nat)
    requires forall e | e in Run(EMPTY, calls).1 && e.Ran? && e.c == c :: e.limit <= bound
    ensures var (db, log) := Run(EMPTY, calls);
            AttemptsIn(InboxRows.CounterOf(db, c)) == PastOf(log, c).consumed <= bound
  {
    RunAgrees(calls);
    RunLegal(calls);
    var (db, log) := Run(EMPTY, calls);
    hide Run, PastOf, Agrees;
    AgreesAt(db, log, c);
    ConsumedWithinLimit(log, |log|, c, bound);
    assert log[..|log|] == log;
  }

  lemma {:induction false} EffectExists(log: seq<Event>, id: Identity, fp: Digest)
    requires fp in Effects(log, id)
    ensures exists e | e in log :: EffectOf(e, id, fp)
  {
    var n := |log| - 1;
    assert log[n] in log;
    if !EffectOf(log[n], id, fp) {
      EffectExists(log[..n], id, fp);
      var e :| e in log[..n] && EffectOf(e, id, fp);
      assert e in log;
    }
  }

  /** An identity is complete only because a handler effect of exactly its stored content was committed. */
  lemma CompletedHasEffect(calls: seq<Call>, id: Identity)
    requires Completed(Run(EMPTY, calls).0, id)
    ensures exists e | e in Run(EMPTY, calls).1 :: EffectOf(e, id, Run(EMPTY, calls).0.identities[id].fp)
  {
    RunAgrees(calls);
    var (db, log) := Run(EMPTY, calls);
    hide Run, Agrees;
    AgreesAt(db, log, Cycle(id, Base(0)));
    assert Effects(log, id) == [db.identities[id].fp];
    EffectExists(log, id, db.identities[id].fp);
  }

  /** The log only grows. */
  lemma RunGrows(calls: seq<Call>, call: Call)
    ensures Run(EMPTY, calls).1 <= Run(EMPTY, calls + [call]).1
    ensures forall e | e in Run(EMPTY, calls).1 :: e in Run(EMPTY, calls + [call]).1
  {
    var all := calls + [call];
    assert all[..|all| - 1] == calls;
    hide Step;
  }

  lemma {:induction false} RunPrefix(calls: seq<Call>, more: seq<Call>)
    ensures Run(EMPTY, calls).1 <= Run(EMPTY, calls + more).1
    decreases |more|
  {
    hide Run;
    if more == [] {
      assert calls + more == calls;
    } else {
      var n := |more| - 1;
      RunPrefix(calls, more[..n]);
      assert calls + more == calls + more[..n] + [more[n]];
      RunGrows(calls + more[..n], more[n]);
    }
  }

  lemma {:induction false} EffectsKept(log: seq<Event>, n: nat, j: nat, id: Identity)
    requires n <= j <= |log| && Effects(log[..n], id) != [] && !RetiredIn(log, n, j, id)
    ensures Effects(log[..j], id) != []
    decreases j
  {
    if n < j {
      PrefixGrows(log, j - 1);
      EffectsKept(log, n, j - 1, id);
    }
  }

  /** Completion is never undone, except by retiring the identity. */
  lemma CompletionLasts(calls: seq<Call>, more: seq<Call>, id: Identity)
    requires Completed(Run(EMPTY, calls).0, id)
    ensures var log, later := Run(EMPTY, calls).1, Run(EMPTY, calls + more).1;
            log <= later && (Completed(Run(EMPTY, calls + more).0, id) || RetiredIn(later, |log|, |later|, id))
  {
    RunPrefix(calls, more);
    RunAgrees(calls);
    RunAgrees(calls + more);
    var (db, log) := Run(EMPTY, calls);
    var (db', later) := Run(EMPTY, calls + more);
    hide Run, Agrees;
    AgreesAt(db, log, Cycle(id, Base(0)));
    AgreesAt(db', later, Cycle(id, Base(0)));
    assert later[..|log|] == log && later[..|later|] == later;
    if !RetiredIn(later, |log|, |later|, id) {
      EffectsKept(later, |log|, |later|, id);
    }
  }

  // ---------------------------------------------------------------- closed cycles until their hand-off

  predicate ConfirmsCycle(call: Call, c: Cycle) {
    call.DoConfirm? && CycleOf(call.key, call.fp) == c
  }

  lemma StepEvents(db: Tables, call: Call, c: Cycle, t: Time)
    ensures Confirmed(c, t) in Step(db, call).1 ==> ConfirmsCycle(call, c)
  {
    hide Decide, DecideProcess, Forgets, DecideConfirm, IsPruneBatch, Prunable, Classify,
         Process, Attempt, Forget, Confirm, Prune, PruneCandidate;
  }

  /** A confirmation in the log was asked for by a call. */
  lemma {:induction false} ConfirmedBy(calls: seq<Call>, c: Cycle, t: Time)
    requires Confirmed(c, t) in Run(EMPTY, calls).1
    ensures exists k | 0 <= k < |calls| :: ConfirmsCycle(calls[k], c)
  {
    if calls != [] {
      var n := |calls| - 1;
      var (mid, log) := Run(EMPTY, calls[..n]);
      hide Step, ConfirmsCycle;
      if Confirmed(c, t) in log {
        ConfirmedBy(calls[..n], c, t);
        var k :| 0 <= k < n && ConfirmsCycle(calls[..n][k], c);
        assert ConfirmsCycle(calls[k], c);
      } else {
        StepEvents(mid, calls[n], c, t);
      }
    }
  }

  /** The cycle has not been reset or retired since position i. */
  ghost predicate LeftAlone(log: seq<Event>, i: nat, c: Cycle) {
    forall k | i < k < |log| :: log[k] != Forgotten(c) && !(log[k].Retired? && c.id in log[k].ids)
  }

  /** A cycle that was closed keeps its terminal row until somebody confirms its hand-off: only an explicit
      reset or the retirement of a completed identity can take it away otherwise. */
  lemma ClosedOrConfirmed(calls: seq<Call>, i: nat, c: Cycle)
    requires var log := Run(EMPTY, calls).1; i < |log| && log[i] == Recorded(c) && LeftAlone(log, i, c)
    ensures c in Run(EMPTY, calls).0.terminal || exists k | 0 <= k < |calls| :: ConfirmsCycle(calls[k], c)
  {
    RunAgrees(calls);
    var (db, log) := Run(EMPTY, calls);
    AgreesAt(db, log, c);
    assert log[..|log|] == log;
    if !RemovedIn(log, i + 1, |log|, c) {
      hide Run, Agrees, PastOf;
      MarkerRemembered(log, i, |log|, c);
    } else {
      var j :| i + 1 <= j < |log| && Removes(log[j], c);
      assert log[j].Pruned?;
      var r, t := PrunedWasConfirmed(calls, j);
      hide Run, Agrees, PastOf;
      assert Confirmed(c, t) in log;
      ConfirmedBy(calls, c, t);
    }
  }

  // ---------------------------------------------------------------- batches and sweeps are histories

  ghost function RunTables(db: Tables, calls: seq<Call>): Tables {
    Run(db, calls).0
  }

  lemma {:induction false} RunHead(db: Tables, calls: seq<Call>)
    requires calls != []
    ensures RunTables(db, calls) == RunTables(Step(db, calls[0]).0, calls[1..])
    decreases |calls|
  {
    hide Step;
    var k := |calls| - 1;
    if k > 0 {
      var front := calls[..k];
      RunHead(db, front);
      assert front[1..] == calls[1..][..k - 1];
    } else {
      assert calls[..k] == [] && calls[1..] == [];
      assert Run(db, calls[..k]) == (db, []);
      RunNone(Step(db, calls[0]).0);
    }
  }

  lemma {:induction false} RunAppend(db: Tables, a: seq<Call>, b: seq<Call>)
    ensures RunTables(db, a + b) == RunTables(RunTables(db, a), b)
    decreases |a|
  {
    hide Run, Step;
    if a == [] {
      assert a + b == b;
      RunNone(db);
    } else {
      RunHead(db, a);
      RunHead(db, a + b);
      assert (a + b)[1..] == a[1..] + b;
      RunAppend(Step(db, a[0]).0, a[1..], b);
    }
  }

  lemma RunNone(db: Tables)
    ensures RunTables(db, []) == db
  {
  }

  /** The attempts a batch amounts to: one per listed delivery. */
  function AttemptCalls(b: Batch, leads: seq<nat>): (r: seq<Call>)
    requires forall k | 0 <= k < |leads| :: leads[k] < |b.items|
    ensures |r| == |leads|
  {
    seq(|leads|, k requires 0 <= k < |leads| =>
          var item := b.items[leads[k]];
          DoAttempt(item.key, item.fp, b.limit, b.OutcomeOf(item.key.id), b.now))
  }

  lemma {:induction false} SequentialRun(b: Batch, from: Tables, leads: seq<nat>)
    requires forall k | 0 <= k < |leads| :: leads[k] < |b.items|
    ensures RunTables(from, AttemptCalls(b, leads)) == b.Sequentially(from, leads)
    decreases |leads|
  {
    hide Run;
    var calls := AttemptCalls(b, leads);
    if leads == [] {
      RunNone(from);
    } else {
      RunHead(from, calls);
      assert calls[1..] == AttemptCalls(b, leads[1..]);
      SequentialRun(b, AttemptAt(b, from, leads[0]), leads[1..]);
    }
  }

  /** A committed batch continues a history by single attempts of its leads, so that every
      guarantee above covers batches too. */
  lemma BatchContinuesRun(calls: seq<Call>, b: Batch)
    requires b.db == RunTables(EMPTY, calls)
    ensures RunTables(EMPTY, calls + AttemptCalls(b, b.Leads())) == b.Result()
  {
    hide Run;
    RunAppend(EMPTY, calls, AttemptCalls(b, b.Leads()));
    SequentialRun(b, b.db, b.Leads());
  }

  function PruneCalls(candidates: seq<Cycle>, before: Time): (r: seq<Call>)
    ensures |r| == |candidates| && forall k | 0 <= k < |r| :: r[k] == DoPruneTerminal(candidates[k], before)
  {
    seq(|candidates|, k requires 0 <= k < |candidates| => DoPruneTerminal(candidates[k], before))
  }

  /** A terminal sweep is a history of single removals. */
  lemma {:induction false} SweepIsRun(db: Tables, candidates: seq<Cycle>, before: Time)
    ensures RunTables(db, PruneCalls(candidates, before)) == PruneTerminal(db, candidates, before)
    decreases |candidates|
  {
    hide Run, PruneCandidate;
    var calls := PruneCalls(candidates, before);
    if candidates == [] {
      RunNone(db);
    } else {
      RunHead(db, calls);
      assert calls[1..] == PruneCalls(candidates[1..], before);
      SweepIsRun(PruneCandidate(db, candidates[0], before), candidates[1..], before);
    }
  }

  lemma {:induction false} LeadsUndisturbed(b: Batch, from: Tables, leads: seq<nat>, id: Identity)
    requires forall k | 0 <= k < |leads| :: leads[k] < |b.items| && b.items[leads[k]].key.id != id
    ensures SameRows(from, b.Sequentially(from, leads), id)
    decreases |leads|
  {
    if leads != [] {
      var mid := AttemptAt(b, from, leads[0]);
      var item := b.items[leads[0]];
      hide Attempt, SameRows;
      AttemptFrame(from, item.key, item.fp, b.limit, b.OutcomeOf(item.key.id), b.now, id);
      LeadsUndisturbed(b, mid, leads[1..], id);
      SameRowsTrans(from, mid, b.Sequentially(mid, leads[1..]), id);
    } else {
      SameRowsRefl(from, id);
    }
  }

  lemma SameRowsRefl(a: Tables, id: Identity)
    ensures SameRows(a, a, id)
  {
  }

  lemma SameRowsTrans(a: Tables, b: Tables, c: Tables, id: Identity)
    requires SameRows(a, b, id) && SameRows(b, c, id)
    ensures SameRows(a, c, id)
  {
  }

  /** Inside a batch every lead is decided as if the batch held nothing else: its handler runs
      exactly if it is active. */
  lemma BatchDecidesAlone(b: Batch, k: nat)
    requires k < |b.Leads()|
    ensures var lead := b.Leads()[k];
            Decide(b.Sequentially(b.db, b.Leads()[..k]), b.items[lead].key, b.items[lead].fp, b.limit) == b.Decision(lead)
  {
    var leads := b.Leads();
    LeadIds(b);
    var ids := IdsAt(b, leads);
    var item := b.items[leads[k]];
    assert ids[k] == item.key.id;
    forall j | 0 <= j < k ensures b.items[leads[j]].key.id != item.key.id {
      assert ids[j] != ids[k];
    }
    LeadsUndisturbed(b, b.db, leads[..k], item.key.id);
    hide Batch.Leads, Decide, SameRows;
    AttemptLocal(b.db, b.Sequentially(b.db, leads[..k]), item.key, item.fp, b.limit, Success, 0);
  }
}
