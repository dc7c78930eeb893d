/** Whole histories of the Inbox: any interleaving of committed calls, started from empty tables,
    compared with the log of what was done to each cycle and each identity. */
module InboxRuns {
  import opened InboxTables
  import opened BatchRuntime
  import opened InboxAttempt
  import opened InboxRows
  import opened InboxMaintenance

  /** One committed transaction. A transaction that rolls back leaves no trace and is not listed. */
  datatype Call =
    | DoProcess(id: Identity, fp: Digest, outcome: Outcome, now: Time)
    | DoAttempt(key: Key, fp: Digest, limit: nat, outcome: Outcome, now: Time)
    | DoForget(key: Key, fp: Digest)
    | DoConfirm(key: Key, fp: Digest, now: Time)
    | DoPrune(before: Time, limit: nat, doomed: set<Identity>)
    | DoPruneTerminal(c: Cycle, before: Time)

  datatype Event =
    | Ran(c: Cycle, limit: nat, outcome: Outcome)
    | RanPlain(id: Identity, fp: Digest)
    | Recorded(c: Cycle)
    | Confirmed(c: Cycle, at: Time)
    | Forgotten(c: Cycle)
    | Pruned(c: Cycle, before: Time)
    | Retired(ids: set<Identity>)

  // ---------------------------------------------------------------- what the log says

  predicate Removes(e: Event, c: Cycle) {
    e == Forgotten(c) || (e.Pruned? && e.c == c) || (e.Retired? && c.id in e.ids)
  }

  /** A committed business effect of the identity. */
  predicate IsEffect(e: Event, id: Identity) {
    (e.Ran? && e.c.id == id && e.outcome.Success?) || (e.RanPlain? && e.id == id)
  }

  predicate Consumes(e: Event, c: Cycle) {
    e.Ran? && e.c == c && !Classify(e.outcome).0.KindDefer?
  }

  /** Handler runs of the cycle that used up an attempt, and its terminal marker: none, or recorded
      with the latest confirmation that followed the latest recording. */
  datatype Past = Past(consumed: nat, marker: Option<Option<Time>>)

  const NOTHING := Past(0, None)

  function PastAfter(p: Past, e: Event, c: Cycle): Past {
    if Removes(e, c) then NOTHING
    else if Consumes(e, c) then p.(consumed := p.consumed + 1)
    else if e == Recorded(c) then p.(marker := Some(None))
    else if e.Confirmed? && e.c == c && p.marker.Some? then p.(marker := Some(Some(Latest(p.marker.value, e.at))))
    else p
  }

  function PastOf(log: seq<Event>, c: Cycle): Past {
    if log == [] then NOTHING else PastAfter(PastOf(log[..|log| - 1], c), log[|log| - 1], c)
  }

  /** The canonical digest of the content whose handler had the effect. */
  function ContentOf(e: Event): Digest
    requires e.Ran? || e.RanPlain?
  {
    if e.Ran? then e.c.fp.digest else e.fp
  }

  /** A committed business effect of the identity with this content. */
  predicate EffectOf(e: Event, id: Identity, fp: Digest) {
    IsEffect(e, id) && ContentOf(e) == fp
  }

  function EffectsAfter(known: seq<Digest>, e: Event, id: Identity): seq<Digest> {
    if e.Retired? && id in e.ids then [] else if IsEffect(e, id) then known + [ContentOf(e)] else known
  }

  /** The contents of the committed business effects of the identity since it was last retired. */
  function Effects(log: seq<Event>, id: Identity): seq<Digest> {
    if log == [] then [] else EffectsAfter(Effects(log[..|log| - 1], id), log[|log| - 1], id)
  }

  lemma LogGrows(log: seq<Event>, e: Event)
    ensures forall c :: PastOf(log + [e], c) == PastAfter(PastOf(log, c), e, c)
    ensures forall id :: Effects(log + [e], id) == EffectsAfter(Effects(log, id), e, id)
  {
    assert (log + [e])[..|log|] == log;
  }

  // ---------------------------------------------------------------- one call

  function AttemptEvents(c: Cycle, d: Decision, limit: nat, outcome: Outcome): seq<Event> {
    match d
    case Closed(_, _) => [Recorded(c)]
    case Invoke(n) =>
      var kind := Classify(outcome).0;
      if kind.KindPermanent? || ((kind.KindRetryAfter? || kind.KindOrdinary?) && n >= limit)
      then [Ran(c, limit, outcome), Recorded(c)] else [Ran(c, limit, outcome)]
    case _ => []
  }

  ghost function Step(db: Tables, call: Call): (Tables, seq<Event>) {
    match call
    case DoProcess(id, fp, outcome, now) =>
      (Process(db, id, fp, outcome, now),
       if DecideProcess(db, id, fp).EntryRun? && outcome.Success? then [RanPlain(id, fp)] else [])
    case DoAttempt(key, fp, limit, outcome, now) =>
      (Attempt(db, key, fp, limit, outcome, now),
       AttemptEvents(CycleOf(key, fp), Decide(db, key, fp, limit), limit, outcome))
    case DoForget(key, fp) =>
      (Forget(db, key, fp), if Forgets(db, key, fp) then [Forgotten(CycleOf(key, fp))] else [])
    case DoConfirm(key, fp, now) =>
      (Confirm(db, key, fp, now), if DecideConfirm(db, key, fp).ConfirmOk? then [Confirmed(CycleOf(key, fp), now)] else [])
    case DoPrune(before, limit, doomed) =>
      if IsPruneBatch(db, before, limit, doomed) then (Prune(db, doomed), [Retired(doomed)]) else (db, [])
    case DoPruneTerminal(c, before) =>
      (PruneCandidate(db, c, before), if Prunable(db, c, before) then [Pruned(c, before)] else [])
  }

  ghost function Run(db: Tables, calls: seq<Call>): (Tables, seq<Event>) {
    if calls == [] then (db, [])
    else
      var (mid, log) := Run(db, calls[..|calls| - 1]);
      var (after, events) := Step(mid, calls[|calls| - 1]);
      (after, log + events)
  }

  // ---------------------------------------------------------------- tables agree with the log

  function MarkerOf(row: Option<TerminalRow>): Option<Option<Time>> {
    if row.None? then None else Some(row.value.confirmedAt)
  }

  function AttemptsIn(counter: Option<CounterRow>): nat {
    if counter.None? then 0 else counter.value.attempts
  }

  ghost predicate CycleAgrees(db: Tables, log: seq<Event>, c: Cycle) {
    PastOf(log, c) == Past(AttemptsIn(CounterOf(db, c)), MarkerOf(Row(db.terminal, c)))
  }

  /** The content that an identity row holds complete. */
  function Finished(row: Option<IdentityRow>): seq<Digest> {
    if row.Some? && row.value.completedAt.Some? then [row.value.fp] else []
  }

  ghost predicate IdentityAgrees(db: Tables, log: seq<Event>, id: Identity) {
    Effects(log, id) == Finished(Row(db.identities, id))
  }

  ghost predicate Agrees(db: Tables, log: seq<Event>) {
    && (forall c :: CycleAgrees(db, log, c))
    && (forall id :: IdentityAgrees(db, log, id))
  }

  lemma EmptyAgrees()
    ensures Agrees(EMPTY, [])
  {
  }

  /** Cycles and identities that neither the tables nor the new events mention stay in agreement. */
  lemma OthersAgree(db: Tables, after: Tables, log: seq<Event>, c: Cycle, e: Cycle, id: Identity)
    requires Agrees(db, log) && OthersKept(db, after, c) && e != c && id != c.id
    ensures PastOf(log, e) == Past(AttemptsIn(CounterOf(after, e)), MarkerOf(Row(after.terminal, e)))
    ensures Effects(log, id) == Finished(Row(after.identities, id))
  {
    hide PastOf, Effects;
    assert CycleAgrees(db, log, e) && IdentityAgrees(db, log, id);
    assert Row(db.identities, id) == Row(after.identities, id);
  }

  predicate EventAbout(e: Event, c: Cycle) {
    (e.Ran? || e.Recorded? || e.Confirmed? || e.Forgotten? || e.Pruned?) && e.c == c
  }

  lemma {:induction false} LogSkips(log: seq<Event>, events: seq<Event>, c: Cycle, e: Cycle, id: Identity)
    requires (forall ev | ev in events :: EventAbout(ev, c)) && e != c && id != c.id
    ensures PastOf(log + events, e) == PastOf(log, e) && Effects(log + events, id) == Effects(log, id)
  {
    if events == [] {
      assert log + events == log;
    } else {
      var k := |events| - 1;
      assert events == events[..k] + [events[k]] && log + events == log + events[..k] + [events[k]];
      LogSkips(log, events[..k], c, e, id);
      LogGrows(log + events[..k], events[k]);
      assert EventAbout(events[k], c);
    }
  }

  /** A call confined to one cycle keeps the agreement if that cycle and its identity agree afterwards. */
  lemma CycleStepAgrees(db: Tables, after: Tables, log: seq<Event>, events: seq<Event>, c: Cycle)
    requires Agrees(db, log) && OthersKept(db, after, c) && forall ev | ev in events :: EventAbout(ev, c)
    requires CycleAgrees(after, log + events, c) && IdentityAgrees(after, log + events, c.id)
    ensures Agrees(after, log + events)
  {
    hide PastOf, Effects, Agrees, OthersKept, Row, CounterOf, Completed;
    var far := Identity(c.id.consumer + "x", c.id.item);
    assert |far.consumer| != |c.id.consumer|;
    forall e ensures CycleAgrees(after, log + events, e) {
      if e != c {
        OthersAgree(db, after, log, c, e, far);
        LogSkips(log, events, c, e, far);
      }
    }
    forall id ensures IdentityAgrees(after, log + events, id) {
      if id != c.id {
        var e := Cycle(id, c.fp);
        OthersAgree(db, after, log, c, e, id);
        LogSkips(log, events, c, e, id);
      }
    }
    AgreesBy(after, log + events);
  }

  lemma AgreesBy(db: Tables, log: seq<Event>)
    requires forall c :: CycleAgrees(db, log, c)
    requires forall id :: IdentityAgrees(db, log, id)
    ensures Agrees(db, log)
  {
  }

  lemma AgreesAt(db: Tables, log: seq<Event>, c: Cycle)
    requires Agrees(db, log)
    ensures PastOf(log, c) == Past(AttemptsIn(CounterOf(db, c)), MarkerOf(Row(db.terminal, c)))
    ensures Effects(log, c.id) == Finished(Row(db.identities, c.id))
  {
    assert CycleAgrees(db, log, c) && IdentityAgrees(db, log, c.id);
  }

  // ---------------------------------------------------------------- attempts

  /** What an attempt's events say about its own cycle, next to the view it leaves. */
  lemma AttemptEventsMatch(v: View, c: Cycle, d: Decision, limit: nat, outcome: Outcome, now: Time,
                           log: seq<Event>)
    requires d.Invoke? || d.Closed?
    requires Grounded(v, c, d, limit)
    requires PastOf(log, c) == Past(AttemptsIn(v.counter), MarkerOf(v.closed))
    requires Effects(log, c.id) == []
    ensures var w := AttemptView(v, c.fp.digest, d, limit, outcome, now);
            var log' := log + AttemptEvents(c, d, limit, outcome);
            && PastOf(log', c) == Past(AttemptsIn(w.counter), MarkerOf(w.closed))
            && Effects(log', c.id) == Finished(w.identity)
  {
    hide PastOf, Effects;
    var events := AttemptEvents(c, d, limit, outcome);
    LogGrows(log, events[0]);
    if |events| == 2 {
      LogGrows(log + [events[0]], events[1]);
      assert log + events == log + [events[0]] + [events[1]];
    } else {
      assert log + events == log + [events[0]];
    }
  }

  /** Agreement on one cycle, read off its view. */
  lemma AgreementByView(db: Tables, log: seq<Event>, c: Cycle)
    ensures var v := ViewOf(db, c);
            && (CycleAgrees(db, log, c) <==> PastOf(log, c) == Past(AttemptsIn(v.counter), MarkerOf(v.closed)))
            && (IdentityAgrees(db, log, c.id) <==>
                  Effects(log, c.id) == Finished(v.identity))
  {
    hide PastOf, Effects;
  }

  lemma AgreesAtCycle(db: Tables, log: seq<Event>, c: Cycle)
    requires Agrees(db, log)
    ensures CycleAgrees(db, log, c) && IdentityAgrees(db, log, c.id)
  {
    hide CycleAgrees, IdentityAgrees;
  }

  lemma AttemptAgrees(db: Tables, log: seq<Event>, key: Key, fp: Digest, limit: nat, outcome: Outcome, now: Time)
    requires Inv(db) && Agrees(db, log)
    ensures Agrees(Attempt(db, key, fp, limit, outcome, now),
                   log + AttemptEvents(CycleOf(key, fp), Decide(db, key, fp, limit), limit, outcome))
  {
    hide *;
    var c := CycleOf(key, fp);
    var d := Decide(db, key, fp, limit);
    var after := Attempt(db, key, fp, limit, outcome, now);
    var events := AttemptEvents(c, d, limit, outcome);
    if d.Invoke? || d.Closed? {
      AttemptCase(db, key, fp, limit, outcome, now);
      AgreesAtCycle(db, log, c);
      AgreementByView(db, log, c);
      AgreementByView(after, log + events, c);
      NotYetComplete(db, c, d, limit);
      AttemptEventsMatch(ViewOf(db, c), c, d, limit, outcome, now, log);
      CycleStepAgrees(db, after, log, events, c);
    } else {
      AttemptIdle(db, key, fp, limit, outcome, now);
      assert log + [] == log;
    }
  }

  lemma AttemptCase(db: Tables, key: Key, fp: Digest, limit: nat, outcome: Outcome, now: Time)
    requires Inv(db)
    requires var d := Decide(db, key, fp, limit); d.Invoke? || d.Closed?
    ensures var c := CycleOf(key, fp); var d := Decide(db, key, fp, limit);
            var after := Attempt(db, key, fp, limit, outcome, now);
            && c.id == key.id && Grounded(ViewOf(db, c), c, d, limit) && OthersKept(db, after, c)
            && ViewOf(after, c) == AttemptView(ViewOf(db, c), c.fp.digest, d, limit, outcome, now)
            && forall ev | ev in AttemptEvents(c, d, limit, outcome) :: EventAbout(ev, c)
  {
    assert RowsOk(db, key.id);
    hide Inv, RowsOk, Grounded, AttemptView, OthersKept, Decide, Attempt;
    DecideByView(db, key, fp, limit);
    AttemptByView(db, key, fp, limit, outcome, now);
  }

  lemma NotYetComplete(db: Tables, c: Cycle, d: Decision, limit: nat)
    requires Grounded(ViewOf(db, c), c, d, limit)
    ensures Finished(ViewOf(db, c).identity) == []
  {
  }

  lemma AttemptIdle(db: Tables, key: Key, fp: Digest, limit: nat, outcome: Outcome, now: Time)
    requires var d := Decide(db, key, fp, limit); !d.Invoke? && !d.Closed?
    ensures Attempt(db, key, fp, limit, outcome, now) == db
    ensures AttemptEvents(CycleOf(key, fp), Decide(db, key, fp, limit), limit, outcome) == []
  {
    hide Decide;
  }

  // ---------------------------------------------------------------- the other calls

  lemma ProcessAgrees(db: Tables, log: seq<Event>, id: Identity, fp: Digest, outcome: Outcome, now: Time)
    requires Inv(db) && Agrees(db, log) && id !in db.identities && outcome.Success?
    ensures Agrees(Process(db, id, fp, outcome, now), log + [RanPlain(id, fp)])
  {
    hide PastOf, Effects;
    ProcessEffect(db, id, fp, outcome, now);
    LogGrows(log, RanPlain(id, fp));
    var after := Process(db, id, fp, outcome, now);
    hide Process;
    forall c ensures CycleAgrees(after, log + [RanPlain(id, fp)], c) {
      assert CycleAgrees(db, log, c);
    }
    forall i ensures IdentityAgrees(after, log + [RanPlain(id, fp)], i) {
      assert IdentityAgrees(db, log, i);
    }
  }

  lemma RemovalAgrees(db: Tables, log: seq<Event>, c: Cycle, e: Event)
    requires Inv(db) && Agrees(db, log) && c.id in db.identities && !Completed(db, c.id)
    requires c.fp.digest == db.identities[c.id].fp
    requires EventAbout(e, c) && Removes(e, c)
    ensures Agrees(RemoveCycle(db, c), log + [e])
  {
    RemoveCycleKeepsRows(db, c);
    var after := RemoveCycle(db, c);
    assert !Completed(after, c.id);
    hide RemoveCycle, Agrees, OthersKept, Inv, PastOf, Effects;
    LogGrows(log, e);
    AgreesAtCycle(db, log, c);
    CycleStepAgrees(db, after, log, [e], c);
  }

  lemma ForgetAgrees(db: Tables, log: seq<Event>, key: Key, fp: Digest)
    requires Inv(db) && Agrees(db, log) && Forgets(db, key, fp)
    ensures Agrees(Forget(db, key, fp), log + [Forgotten(CycleOf(key, fp))])
  {
    hide Agrees, Inv, Forget, RemoveCycle;
    ForgetRemovesCycle(db, key, fp);
    RemovalAgrees(db, log, CycleOf(key, fp), Forgotten(CycleOf(key, fp)));
  }

  lemma PruneTerminalAgrees(db: Tables, log: seq<Event>, c: Cycle, before: Time)
    requires Inv(db) && Agrees(db, log) && Prunable(db, c, before)
    ensures Agrees(PruneCandidate(db, c, before), log + [Pruned(c, before)])
  {
    hide Agrees, Inv, RemoveCycle;
    PrunableFits(db, c, before);
    RemovalAgrees(db, log, c, Pruned(c, before));
  }

  lemma ConfirmAgrees(db: Tables, log: seq<Event>, key: Key, fp: Digest, now: Time)
    requires Inv(db) && Agrees(db, log) && DecideConfirm(db, key, fp).ConfirmOk?
    ensures Agrees(Confirm(db, key, fp, now), log + [Confirmed(CycleOf(key, fp), now)])
  {
    var c := CycleOf(key, fp);
    var after := Confirm(db, key, fp, now);
    var e := Confirmed(c, now);
    ConfirmKeepsRows(db, key, fp, now);
    hide Agrees, OthersKept, Inv, PastOf, Effects;
    LogGrows(log, e);
    AgreesAtCycle(db, log, c);
    CycleStepAgrees(db, after, log, [e], c);
  }

  lemma PruneAgrees(db: Tables, log: seq<Event>, doomed: set<Identity>)
    requires Agrees(db, log)
    ensures Agrees(Prune(db, doomed), log + [Retired(doomed)])
  {
    hide PastOf, Effects;
    var e := Retired(doomed);
    var after := Prune(db, doomed);
    LogGrows(log, e);
    forall c ensures CycleAgrees(after, log + [e], c) {
      assert CycleAgrees(db, log, c);
    }
    forall id ensures IdentityAgrees(after, log + [e], id) {
      assert IdentityAgrees(db, log, id);
    }
  }

  // ---------------------------------------------------------------- every run

  lemma StepKeepsRows(db: Tables, call: Call)
    requires Inv(db)
    ensures Inv(Step(db, call).0)
  {
    hide Inv, Process, Attempt, Forget, Confirm, Prune, PruneCandidate, RemoveCycle;
    match call
    case DoProcess(id, fp, outcome, now) => ProcessKeepsRows(db, id, fp, outcome, now);
    case DoAttempt(key, fp, limit, outcome, now) => AttemptKeepsRows(db, key, fp, limit, outcome, now);
    case DoForget(key, fp) => ForgetKeepsRows(db, key, fp);
    case DoConfirm(key, fp, now) => ConfirmKeepsRows(db, key, fp, now);
    case DoPrune(_, _, doomed) => PruneKeepsRows(db, doomed);
    case DoPruneTerminal(c, before) => PruneCandidateKeepsRows(db, c, before);
  }

  lemma ForgetKeepsRows(db: Tables, key: Key, fp: Digest)
    requires Inv(db)
    ensures Inv(Forget(db, key, fp))
  {
    if Forgets(db, key, fp) {
      hide Inv, Forget, RemoveCycle;
      ForgetRemovesCycle(db, key, fp);
      RemoveCycleKeepsRows(db, CycleOf(key, fp));
    }
  }

  lemma StepAgrees(db: Tables, log: seq<Event>, call: Call)
    requires Inv(db) && Agrees(db, log)
    ensures var (after, events) := Step(db, call); Agrees(after, log + events)
  {
    hide Inv, Agrees, Attempt, AttemptEvents, Decide, DecideProcess, Process, Prune, RemoveCycle, IsPruneBatch;
    assert log + [] == log;
    match call
    case DoProcess(id, fp, outcome, now) =>
      ProcessNeverResumes(db, id, fp);
      ProcessIdle(db, id, fp, outcome, now);
      if id !in db.identities && outcome.Success? {
        ProcessAgrees(db, log, id, fp, outcome, now);
      }
    case DoAttempt(key, fp, limit, outcome, now) => AttemptAgrees(db, log, key, fp, limit, outcome, now);
    case DoForget(key, fp) =>
      if Forgets(db, key, fp) {
        ForgetAgrees(db, log, key, fp);
      }
    case DoConfirm(key, fp, now) =>
      if DecideConfirm(db, key, fp).ConfirmOk? {
        ConfirmAgrees(db, log, key, fp, now);
      }
    case DoPrune(_, _, doomed) => PruneAgrees(db, log, doomed);
    case DoPruneTerminal(c, before) =>
      if Prunable(db, c, before) {
        PruneTerminalAgrees(db, log, c, before);
      }
  }

  lemma ProcessIdle(db: Tables, id: Identity, fp: Digest, outcome: Outcome, now: Time)
    requires Inv(db)
    ensures id in db.identities || !outcome.Success? ==> Process(db, id, fp, outcome, now) == db
  {
    ProcessEffect(db, id, fp, outcome, now);
  }

  /** After any history the tables are well formed and say exactly what the log says. */
  lemma {:induction false} RunAgrees(calls: seq<Call>)
    ensures var (db, log) := Run(EMPTY, calls); Inv(db) && Agrees(db, log)
  {
    hide Inv, Agrees, Step;
    if calls == [] {
      EmptyInv();
      EmptyAgrees();
    } else {
      var k := |calls| - 1;
      RunAgrees(calls[..k]);
      var (mid, log) := Run(EMPTY, calls[..k]);
      StepKeepsRows(mid, calls[k]);
      StepAgrees(mid, log, calls[k]);
    }
  }

  // ---------------------------------------------------------------- what every log shows

  /** When an event may follow a log. */
  predicate Legal(log: seq<Event>, e: Event) {
    match e
    case Ran(c, limit, _) => PastOf(log, c).marker.None? && PastOf(log, c).consumed < limit && Effects(log, c.id) == []
    case RanPlain(id, _) => Effects(log, id) == []
    case Recorded(c) => Effects(log, c.id) == [] && PastOf(log, c).consumed > 0
    case Confirmed(c, _) => PastOf(log, c).marker.Some?
    case Forgotten(c) => Effects(log, c.id) == []
    case Pruned(c, before) =>
      && PastOf(log, c).marker.Some? && PastOf(log, c).marker.value.Some?
      && PastOf(log, c).marker.value.value < before && Effects(log, c.id) == []
    case Retired(ids) => forall id | id in ids :: |Effects(log, id)| == 1
  }

  ghost predicate AllLegal(log: seq<Event>) {
    forall j | 0 <= j < |log| :: Legal(log[..j], log[j])
  }

  lemma LegalGrows(log: seq<Event>, e: Event)
    requires AllLegal(log) && Legal(log, e)
    ensures AllLegal(log + [e])
  {
    hide Legal;
    var grown := log + [e];
    forall j | 0 <= j < |grown| ensures Legal(grown[..j], grown[j]) {
      assert grown[..j] == if j < |log| then log[..j] else log;
    }
  }

  lemma AttemptLegal(db: Tables, log: seq<Event>, key: Key, fp: Digest, limit: nat, outcome: Outcome)
    requires Inv(db) && Agrees(db, log) && AllLegal(log)
    ensures AllLegal(log + AttemptEvents(CycleOf(key, fp), Decide(db, key, fp, limit), limit, outcome))
  {
    hide *;
    var c := CycleOf(key, fp);
    var d := Decide(db, key, fp, limit);
    if d.Invoke? || d.Closed? {
      AttemptCase(db, key, fp, limit, outcome, 0);
      AgreesAtCycle(db, log, c);
      AgreementByView(db, log, c);
      NotYetComplete(db, c, d, limit);
      EventsLegal(ViewOf(db, c), c, d, limit, outcome, log);
    } else {
      AttemptIdle(db, key, fp, limit, outcome, 0);
      assert log + [] == log;
    }
  }

  lemma EventsLegal(v: View, c: Cycle, d: Decision, limit: nat, outcome: Outcome, log: seq<Event>)
    requires (d.Invoke? || d.Closed?) && Grounded(v, c, d, limit) && AllLegal(log)
    requires PastOf(log, c) == Past(AttemptsIn(v.counter), MarkerOf(v.closed)) && Effects(log, c.id) == []
    ensures AllLegal(log + AttemptEvents(c, d, limit, outcome))
  {
    hide PastOf, Effects, AllLegal;
    var events := AttemptEvents(c, d, limit, outcome);
    assert Legal(log, events[0]);
    LegalGrows(log, events[0]);
    if |events| == 2 {
      LogGrows(log, events[0]);
      assert Legal(log + [events[0]], events[1]);
      LegalGrows(log + [events[0]], events[1]);
      assert log + events == log + [events[0]] + [events[1]];
    } else {
      assert log + events == log + [events[0]];
    }
  }

  lemma StepLegal(db: Tables, log: seq<Event>, call: Call)
    requires Inv(db) && Agrees(db, log) && AllLegal(log)
    ensures AllLegal(log + Step(db, call).1)
  {
    hide Inv, Agrees, AllLegal, Attempt, AttemptEvents, Decide, DecideProcess, Process, Prune, RemoveCycle, PastOf, Effects;
    assert log + [] == log;
    match call
    case DoProcess(id, fp, outcome, now) =>
      ProcessNeverResumes(db, id, fp);
      AgreesAt(db, log, Cycle(id, Base(fp)));
      if id !in db.identities {
        LegalGrows(log, RanPlain(id, fp));
      }
    case DoAttempt(key, fp, limit, outcome, now) => AttemptLegal(db, log, key, fp, limit, outcome);
    case DoForget(key, fp) =>
      AgreesAt(db, log, CycleOf(key, fp));
      if Forgets(db, key, fp) {
        LegalGrows(log, Forgotten(CycleOf(key, fp)));
      }
    case DoConfirm(key, fp, now) =>
      AgreesAt(db, log, CycleOf(key, fp));
      if DecideConfirm(db, key, fp).ConfirmOk? {
        LegalGrows(log, Confirmed(CycleOf(key, fp), now));
      }
    case DoPrune(before, limit, doomed) =>
      if IsPruneBatch(db, before, limit, doomed) {
        forall id | id in doomed ensures |Effects(log, id)| == 1 {
          AgreesAt(db, log, Cycle(id, Base(0)));
        }
        LegalGrows(log, Retired(doomed));
      }
    case DoPruneTerminal(c, before) =>
      AgreesAt(db, log, c);
      if Prunable(db, c, before) {
        LegalGrows(log, Pruned(c, before));
      }
  }

  lemma {:induction false} RunLegal(calls: seq<Call>)
    ensures AllLegal(Run(EMPTY, calls).1)
  {
    if calls != [] {
      hide Inv, Agrees, Step, AllLegal;
      var k := |calls| - 1;
      RunLegal(calls[..k]);
      RunAgrees(calls[..k]);
      var (mid, log) := Run(EMPTY, calls[..k]);
      StepLegal(mid, log, calls[k]);
    }
  }
}
