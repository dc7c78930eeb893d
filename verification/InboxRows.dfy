/** The row-structure invariant of the four tables and the one-cycle view
    through which every attempt statement is reasoned about. */
module InboxRows {
  import opened InboxTables
  import opened BatchRuntime
  import opened InboxAttempt

  /** The counter row recorded under exactly this derived fingerprint. */
  function CounterOf(db: Tables, c: Cycle): Option<CounterRow> {
    if c.fp.Base? then
      if c.id in db.legacy && db.legacy[c.id].fp == c.fp
      then Some(CounterRow(db.legacy[c.id].attempts, db.legacy[c.id].terminal)) else None
    else Row(db.generations, c)
  }

  /** All a transaction can see or change about one attempt cycle. */
  datatype View = View(identity: Option<IdentityRow>, counter: Option<CounterRow>, closed: Option<TerminalRow>)

  function ViewOf(db: Tables, c: Cycle): View {
    View(Row(db.identities, c.id), CounterOf(db, c), Row(db.terminal, c))
  }

  /** Counter and terminal marker of one cycle agree with each other and with the identity. */
  predicate ViewOk(v: View, c: Cycle) {
    && (v.counter.Some? ==>
          && v.identity.Some? && c.fp.digest == v.identity.value.fp
          && (c.fp.Gen? ==> c.fp.generation != "")
          && (v.counter.value.terminal <==> v.closed.Some? && v.closed.value.kind.Permanent?))
    && (v.closed.Some? ==>
          v.counter.Some? && v.closed.value.attempts == v.counter.value.attempts > 0)
  }

  /** Row-structure invariant of one identity. */
  ghost predicate RowsOk(db: Tables, id: Identity) {
    && (id in db.legacy ==> id in db.identities && db.legacy[id].fp == Base(db.identities[id].fp))
    && (forall d :: Cycle(id, d) in db.generations ==> d.Gen?)
    && (forall d :: ViewOk(ViewOf(db, Cycle(id, d)), Cycle(id, d)))
    && (id in db.identities && db.identities[id].completedAt.None? ==> HasAttempts(db, id))
  }

  /** Row-structure invariant of the whole database. */
  ghost predicate Inv(db: Tables) {
    forall id :: RowsOk(db, id)
  }

  lemma EmptyInv()
    ensures Inv(EMPTY)
  {
  }

  lemma HasAttemptsLocal(a: Tables, b: Tables, id: Identity)
    requires SameRows(a, b, id) && HasAttempts(a, id)
    ensures HasAttempts(b, id)
  {
    if id in a.legacy {
      assert Row(a.legacy, id) == Row(b.legacy, id);
    } else {
      var c :| c in a.generations && c.id == id;
      assert c == Cycle(id, c.fp);
      assert Row(a.generations, Cycle(id, c.fp)) == Row(b.generations, Cycle(id, c.fp));
    }
  }

  lemma ViewLocal(a: Tables, b: Tables, c: Cycle)
    requires SameRows(a, b, c.id)
    ensures ViewOf(a, c) == ViewOf(b, c)
  {
    assert c == Cycle(c.id, c.fp);
    assert Row(a.identities, c.id) == Row(b.identities, c.id);
    assert Row(a.legacy, c.id) == Row(b.legacy, c.id);
    assert Row(a.generations, c) == Row(b.generations, c);
    assert Row(a.terminal, c) == Row(b.terminal, c);
  }

  lemma RowsOkLocal(a: Tables, b: Tables, id: Identity)
    requires SameRows(a, b, id) && RowsOk(a, id)
    ensures RowsOk(b, id)
  {
    assert Row(a.identities, id) == Row(b.identities, id);
    assert Row(a.legacy, id) == Row(b.legacy, id);
    if HasAttempts(a, id) {
      HasAttemptsLocal(a, b, id);
    }
    forall d ensures ViewOk(ViewOf(b, Cycle(id, d)), Cycle(id, d)) {
      ViewLocal(a, b, Cycle(id, d));
      assert ViewOk(ViewOf(a, Cycle(id, d)), Cycle(id, d));
    }
    forall d | Cycle(id, d) in b.generations ensures d.Gen? {
      assert Row(a.generations, Cycle(id, d)) == Row(b.generations, Cycle(id, d));
    }
  }

  /** The legacy row, if there is one, belongs to this cycle. */
  predicate Fits(db: Tables, c: Cycle) {
    c.fp.Base? && c.id in db.legacy ==> db.legacy[c.id].fp == c.fp
  }

  predicate About(s: Statement, c: Cycle) {
    match s
    case InsertIdentity(id, fp) => id == c.id && fp == c.fp.digest
    case MarkComplete(id, _) => id == c.id
    case Bump(d) => d == c
    case MarkTerminal(d) => d == c
    case PreserveZero(d) => d == c
    case Record(d, _, _, _) => d == c
  }

  function Or<T>(x: Option<T>, otherwise: Option<T>): Option<T> {
    if x.Some? then x else otherwise
  }

  function ViewAfter(v: View, s: Statement): View {
    if s.InsertIdentity? || s.MarkComplete? then v.(identity := Or(IdentityAfter(s, v.identity), v.identity))
    else if s.Record? then v.(closed := TerminalAfter(s, v.closed))
    else v.(counter := Or(GenerationAfter(s, v.counter), v.counter))
  }

  function ViewAfterAll(v: View, ss: seq<Statement>): View
    decreases |ss|
  {
    if ss == [] then v else ViewAfterAll(ViewAfter(v, ss[0]), ss[1..])
  }

  /** Nothing about other cycles changed, except that the identity row is shared. */
  ghost predicate OthersKept(a: Tables, b: Tables, c: Cycle) {
    && (forall e :: e != c ==> Row(a.terminal, e) == Row(b.terminal, e))
    && (forall e :: e != c ==> CounterOf(a, e) == CounterOf(b, e))
    && (forall e :: e != c ==> Row(a.generations, e) == Row(b.generations, e))
    && (forall id :: id != c.id ==> Row(a.identities, id) == Row(b.identities, id) && Row(a.legacy, id) == Row(b.legacy, id))
    && (c.fp.Gen? ==> a.legacy == b.legacy)
    && (c.fp.Base? ==> a.generations == b.generations)
  }

  lemma ExecViewLegacy(db: Tables, s: Statement, c: Cycle)
    requires OnCounter(s) && c.fp.Base? && About(s, c) && Fits(db, c)
    ensures ViewOf(Exec(db, s), c) == ViewAfter(ViewOf(db, c), s)
    ensures Fits(Exec(db, s), c)
    ensures OthersKept(db, Exec(db, s), c)
  {
    var after := Exec(db, s);
    assert after == db.(legacy := Put(db.legacy, c.id, LegacyAfter(s, Row(db.legacy, c.id))));
    forall id | id != c.id ensures Row(db.legacy, id) == Row(after.legacy, id) {
      PutRow(db.legacy, c.id, LegacyAfter(s, Row(db.legacy, c.id)), id);
    }
    forall e | e != c ensures CounterOf(db, e) == CounterOf(after, e) {
    }
  }

  lemma ExecViewGeneration(db: Tables, s: Statement, c: Cycle)
    requires OnCounter(s) && c.fp.Gen? && About(s, c)
    ensures ViewOf(Exec(db, s), c) == ViewAfter(ViewOf(db, c), s)
    ensures Fits(Exec(db, s), c)
    ensures OthersKept(db, Exec(db, s), c)
  {
    var after := Exec(db, s);
    assert after == db.(generations := Put(db.generations, c, GenerationAfter(s, Row(db.generations, c))));
    PutRow(db.generations, c, GenerationAfter(s, Row(db.generations, c)), c);
    forall e | e != c ensures CounterOf(db, e) == CounterOf(after, e) {
      PutRow(db.generations, c, GenerationAfter(s, Row(db.generations, c)), e);
    }
  }

  /** A statement about a cycle acts on that cycle's view alone. */
  lemma ExecView(db: Tables, s: Statement, c: Cycle)
    requires About(s, c) && Fits(db, c)
    ensures ViewOf(Exec(db, s), c) == ViewAfter(ViewOf(db, c), s)
    ensures Fits(Exec(db, s), c)
    ensures OthersKept(db, Exec(db, s), c)
  {
    if OnCounter(s) {
      if c.fp.Base? {
        ExecViewLegacy(db, s, c);
      } else {
        ExecViewGeneration(db, s, c);
      }
    } else if s.Record? {
      var after := Exec(db, s);
      PutRow(db.terminal, c, TerminalAfter(s, Row(db.terminal, c)), c);
      forall e | e != c ensures Row(db.terminal, e) == Row(after.terminal, e) {
        PutRow(db.terminal, c, TerminalAfter(s, Row(db.terminal, c)), e);
      }
    } else {
      var after := Exec(db, s);
      PutRow(db.identities, c.id, IdentityAfter(s, Row(db.identities, c.id)), c.id);
      forall id | id != c.id ensures Row(db.identities, id) == Row(after.identities, id) {
        PutRow(db.identities, c.id, IdentityAfter(s, Row(db.identities, c.id)), id);
      }
    }
  }

  lemma {:induction false} ExecAllView(db: Tables, ss: seq<Statement>, c: Cycle)
    requires Fits(db, c)
    requires forall s | s in ss :: About(s, c)
    ensures ViewOf(ExecAll(db, ss), c) == ViewAfterAll(ViewOf(db, c), ss)
    ensures Fits(ExecAll(db, ss), c)
    ensures OthersKept(db, ExecAll(db, ss), c)
    decreases |ss|
  {
    if ss != [] {
      var mid := Exec(db, ss[0]);
      ExecView(db, ss[0], c);
      ExecAllView(mid, ss[1..], c);
    }
  }

  // ------------------------------------------------------ one whole attempt

  /** What an attempt leaves of its cycle, said directly rather than statement by statement. */
  function AttemptView(v: View, fp: Digest, d: Decision, limit: nat, outcome: Outcome, now: Time): View {
    match d
    case Refused => v
    case Conflict => v
    case Duplicate(_) => v
    case Closed(n, kind) =>
      v.(closed := Some(if v.closed.Some? then v.closed.value.(confirmedAt := None)
                        else TerminalRow(n, kind, now, None)))
    case Invoke(n) =>
      var known := IdentityRow(fp, None);
      var bumped := CounterRow(n, false);
      match Classify(outcome).0
      case KindSuccess => View(Some(known.(completedAt := Some(now))), Some(bumped), None)
      case KindPermanent =>
        View(Some(known), Some(bumped.(terminal := true)), Some(TerminalRow(n, Permanent, now, None)))
      case KindDefer => View(Some(known), Some(CounterRow(if n == 0 then 0 else n - 1, false)), None)
      case _ =>
        View(Some(known), Some(bumped),
             if n >= limit then Some(TerminalRow(n, AttemptsExhausted, now, None)) else None)
  }

  /** What a decision to run or to refuse for good says about the cycle it was taken on. */
  predicate Grounded(v: View, c: Cycle, d: Decision, limit: nat) {
    && limit > 0 && ViewOk(v, c)
    && (v.identity.Some? ==> v.identity.value == IdentityRow(c.fp.digest, None))
    && (c.fp.Gen? ==> c.fp.generation != "")
    && (d.Invoke? ==>
          && v.closed.None? && 1 <= d.attempt <= limit
          && (if v.counter.None? then d.attempt == 1
              else v.identity.Some? && v.counter == Some(CounterRow(d.attempt - 1, false))))
    && (d.Closed? ==>
          && v.identity.Some? && v.counter.Some? && v.counter.value.attempts == d.attempt > 0
          && (if v.closed.Some? then v.closed.value.kind == d.kind
              else d.kind.AttemptsExhausted? && d.attempt >= limit && !v.counter.value.terminal))
  }

  /** Decisions read off a consistent cycle view. */
  lemma DecideByView(db: Tables, key: Key, fp: Digest, limit: nat)
    requires RowsOk(db, key.id)
    ensures var c := CycleOf(key, fp); var v := ViewOf(db, c); var d := Decide(db, key, fp, limit);
            && (d.Invoke? || d.Closed? ==> Fits(db, c) && Grounded(v, c, d, limit))
            && (v.closed.Some? && limit > 0 && !Completed(db, key.id) ==> d.Closed?)
  {
    var c := CycleOf(key, fp);
    assert c == Cycle(key.id, c.fp);
    assert ViewOk(ViewOf(db, c), c);
  }

  lemma StatementsAbout(db: Tables, key: Key, fp: Digest, limit: nat, outcome: Outcome, now: Time)
    ensures forall s | s in Statements(db, key, fp, limit, outcome, now) :: About(s, CycleOf(key, fp))
  {
  }

  /** The statement list of an attempt has exactly the described effect on its cycle and none elsewhere. */
  lemma AttemptByView(db: Tables, key: Key, fp: Digest, limit: nat, outcome: Outcome, now: Time)
    requires RowsOk(db, key.id)
    ensures var c := CycleOf(key, fp); var after := Attempt(db, key, fp, limit, outcome, now);
            && ViewOf(after, c) == AttemptView(ViewOf(db, c), fp, Decide(db, key, fp, limit), limit, outcome, now)
            && OthersKept(db, after, c)
            && (Fits(db, c) ==> Fits(after, c))
  {
    var c := CycleOf(key, fp);
    var ss := Statements(db, key, fp, limit, outcome, now);
    var d := Decide(db, key, fp, limit);
    if d.Invoke? || d.Closed? {
      DecideByView(db, key, fp, limit);
      StatementsAbout(db, key, fp, limit, outcome, now);
      ExecAllView(db, ss, c);
      AttemptViewSteps(ViewOf(db, c), db, key, fp, limit, outcome, now);
    }
  }

  lemma SettleSteps(w: View, c: Cycle, n: nat, limit: nat, outcome: Outcome, now: Time)
    requires n > 0 && w.identity == Some(IdentityRow(c.fp.digest, None)) && w.closed.None?
    requires if n == 1 && w.counter.None? then true else w.counter == Some(CounterRow(n - 1, false))
    ensures ViewAfterAll(w, Settle(c, n, limit, outcome, now))
            == AttemptView(w, c.fp.digest, Invoke(n), limit, outcome, now)
  {
    ViewSmall(w, Settle(c, n, limit, outcome, now));
  }

  lemma AttemptViewSteps(v: View, db: Tables, key: Key, fp: Digest, limit: nat, outcome: Outcome, now: Time)
    requires RowsOk(db, key.id) && v == ViewOf(db, CycleOf(key, fp))
    requires var d := Decide(db, key, fp, limit); d.Invoke? || d.Closed?
    ensures ViewAfterAll(v, Statements(db, key, fp, limit, outcome, now))
            == AttemptView(v, fp, Decide(db, key, fp, limit), limit, outcome, now)
  {
    DecideByView(db, key, fp, limit);
    var c := CycleOf(key, fp);
    var d := Decide(db, key, fp, limit);
    var first := FreshIdentity(db, key.id, fp);
    var w := v.(identity := Some(IdentityRow(fp, None)));
    ViewSmall(v, first);
    if d.Closed? {
      ViewAppend(v, first, [Record(c, d.attempt, d.kind, now)]);
      ViewSmall(w, [Record(c, d.attempt, d.kind, now)]);
    } else {
      ViewAppend(v, first, Settle(c, d.attempt, limit, outcome, now));
      SettleSteps(w, c, d.attempt, limit, outcome, now);
    }
  }

  lemma {:induction false} ViewAppend(v: View, a: seq<Statement>, b: seq<Statement>)
    ensures ViewAfterAll(v, a + b) == ViewAfterAll(ViewAfterAll(v, a), b)
    decreases |a|
  {
    if a == [] {
      assert a + b == b;
    } else {
      assert (a + b)[1..] == a[1..] + b;
      ViewAppend(ViewAfter(v, a[0]), a[1..], b);
    }
  }

  lemma ViewSmall(v: View, ss: seq<Statement>)
    ensures |ss| == 0 ==> ViewAfterAll(v, ss) == v
    ensures |ss| == 1 ==> ViewAfterAll(v, ss) == ViewAfter(v, ss[0])
    ensures |ss| == 2 ==> ViewAfterAll(v, ss) == ViewAfter(ViewAfter(v, ss[0]), ss[1])
    ensures |ss| == 3 ==> ViewAfterAll(v, ss) == ViewAfter(ViewAfter(ViewAfter(v, ss[0]), ss[1]), ss[2])
    decreases |ss|
  {
    if 1 < |ss| {
      ViewSmall(ViewAfter(v, ss[0]), ss[1..]);
    }
  }

  // ------------------------------------------- keeping the invariant

  lemma OthersSame(db: Tables, after: Tables, c: Cycle, id: Identity)
    requires OthersKept(db, after, c) && id != c.id
    ensures SameRows(db, after, id)
  {
  }

  /** A change confined to one cycle keeps the invariant when that cycle stays
      consistent and an identity row disappears only together with its last attempt row. */
  lemma CycleChangeKeepsRows(db: Tables, after: Tables, c: Cycle)
    requires Inv(db) && OthersKept(db, after, c)
    requires Fits(after, c) && ViewOk(ViewOf(after, c), c)
    requires c.fp.Base? ==> c !in after.generations
    requires c.id in db.identities ==>
               (c.id in after.identities && after.identities[c.id].fp == db.identities[c.id].fp)
               || !HasAttempts(after, c.id)
    requires c.id in after.identities && after.identities[c.id].completedAt.None? ==> HasAttempts(after, c.id)
    ensures Inv(after)
  {
    forall id ensures RowsOk(after, id) {
      assert RowsOk(db, id);
      if id != c.id {
        OthersSame(db, after, c, id);
        RowsOkLocal(db, after, id);
      } else {
        CycleChangeKeepsOwnRows(db, after, c);
      }
    }
  }

  lemma CycleChangeKeepsOwnRows(db: Tables, after: Tables, c: Cycle)
    requires RowsOk(db, c.id) && OthersKept(db, after, c)
    requires Fits(after, c) && ViewOk(ViewOf(after, c), c)
    requires c.fp.Base? ==> c !in after.generations
    requires c.id in db.identities ==>
               (c.id in after.identities && after.identities[c.id].fp == db.identities[c.id].fp)
               || !HasAttempts(after, c.id)
    requires c.id in after.identities && after.identities[c.id].completedAt.None? ==> HasAttempts(after, c.id)
    ensures RowsOk(after, c.id)
  {
    forall d ensures ViewOk(ViewOf(after, Cycle(c.id, d)), Cycle(c.id, d)) {
      var e := Cycle(c.id, d);
      if e != c {
        assert ViewOk(ViewOf(db, e), e);
        assert CounterOf(db, e) == CounterOf(after, e);
        assert Row(db.terminal, e) == Row(after.terminal, e);
        if CounterOf(after, e).Some? {
          assert HasAttempts(after, c.id);
        }
      }
    }
    forall d | Cycle(c.id, d) in after.generations ensures d.Gen? {
      var e := Cycle(c.id, d);
      if e != c {
        assert Row(db.generations, e) == Row(after.generations, e);
      }
    }
    if c.id in after.legacy {
      assert HasAttempts(after, c.id);
      if c.fp.Base? {
        assert CounterOf(after, c).Some?;
      } else {
        assert c.id in db.legacy;
      }
    }
  }

  lemma AttemptViewOk(v: View, c: Cycle, d: Decision, limit: nat, outcome: Outcome, now: Time)
    requires (d.Invoke? || d.Closed?) && Grounded(v, c, d, limit)
    ensures var w := AttemptView(v, c.fp.digest, d, limit, outcome, now);
            && ViewOk(w, c) && w.counter.Some?
            && w.identity.Some? && w.identity.value.fp == c.fp.digest
  {
  }

  lemma CounterMeansAttempts(db: Tables, c: Cycle)
    requires CounterOf(db, c).Some?
    ensures HasAttempts(db, c.id)
  {
  }

  /** Every committed attempt keeps the row-structure invariant. */
  lemma AttemptKeepsRows(db: Tables, key: Key, fp: Digest, limit: nat, outcome: Outcome, now: Time)
    requires Inv(db)
    ensures Inv(Attempt(db, key, fp, limit, outcome, now))
  {
    hide *;
    var c := CycleOf(key, fp);
    var d := Decide(db, key, fp, limit);
    RowsOkAt(db, key.id);
    if d.Invoke? || d.Closed? {
      DecideByView(db, key, fp, limit);
      AttemptByView(db, key, fp, limit, outcome, now);
      CycleOfFields(key, fp);
      AttemptViewOk(ViewOf(db, c), c, d, limit, outcome, now);
      GroundedChange(db, Attempt(db, key, fp, limit, outcome, now), c, d, limit, outcome, now);
    } else {
      NoStatements(db, key, fp, limit, outcome, now);
    }
  }

  lemma RowsOkAt(db: Tables, id: Identity)
    requires Inv(db)
    ensures RowsOk(db, id)
  {
    hide RowsOk;
  }

  lemma CycleOfFields(key: Key, fp: Digest)
    ensures CycleOf(key, fp).id == key.id && CycleOf(key, fp).fp.digest == fp
  {
  }

  lemma NoStatements(db: Tables, key: Key, fp: Digest, limit: nat, outcome: Outcome, now: Time)
    requires var d := Decide(db, key, fp, limit); !d.Invoke? && !d.Closed?
    ensures Attempt(db, key, fp, limit, outcome, now) == db
  {
    hide Decide;
  }

  lemma GroundedChange(db: Tables, after: Tables, c: Cycle, d: Decision, limit: nat, outcome: Outcome, now: Time)
    requires Inv(db) && RowsOk(db, c.id) && OthersKept(db, after, c) && Fits(after, c)
    requires Grounded(ViewOf(db, c), c, d, limit) && ViewOk(ViewOf(after, c), c)
    requires var w := ViewOf(after, c); w.counter.Some? && w.identity.Some? && w.identity.value.fp == c.fp.digest
    ensures Inv(after)
  {
    hide Inv, RowsOk, OthersKept, HasAttempts;
    CounterMeansAttempts(after, c);
    BaseHasNoGeneration(db, after, c);
    CycleChangeKeepsRows(db, after, c);
  }

  lemma BaseHasNoGeneration(db: Tables, after: Tables, c: Cycle)
    requires RowsOk(db, c.id) && OthersKept(db, after, c)
    ensures c.fp.Base? ==> c !in after.generations
  {
    assert c == Cycle(c.id, c.fp);
  }
}
