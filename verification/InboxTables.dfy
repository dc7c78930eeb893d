/** The four durable Inbox tables, keyed as their SQL primary keys say, and the
    row statements that the backends issue inside one transaction. */
module InboxTables {

  datatype Option<+T> = None | Some(value: T)

  function Unwrap<T>(slots: seq<Option<T>>): (r: seq<T>)
    requires forall i | 0 <= i < |slots| :: slots[i].Some?
    ensures |r| == |slots| && forall i | 0 <= i < |slots| :: r[i] == slots[i].value
  {
    seq(|slots|, i requires 0 <= i < |slots| => slots[i].value)
  }

  /** A canonical envelope digest; only ever compared for equality. */
  type Digest = nat

  type Time = nat

  /** The transport-neutral key of one handler result. */
  datatype ItemKey = ItemKey(source: string, message: string)

  /** The logical identity: (consumer_id, source, message_id). */
  datatype Identity = Identity(consumer: string, item: ItemKey)

  /** A logical identity plus the replay generation that selects one bounded attempt cycle. */
  datatype Key = Key(id: Identity, generation: string)

  /** The derived attempt fingerprint. SHA-256 is taken to be injective on the two shapes it is fed. */
  datatype Derived = Base(digest: Digest) | Gen(digest: Digest, generation: string)

  function AttemptFingerprint(key: Key, fp: Digest): Derived {
    if key.generation == "" then Base(fp) else Gen(fp, key.generation)
  }

  /** Primary key of the generation and terminal tables. */
  datatype Cycle = Cycle(id: Identity, fp: Derived)

  function CycleOf(key: Key, fp: Digest): Cycle {
    Cycle(key.id, AttemptFingerprint(key, fp))
  }

  datatype CloseKind = Permanent | AttemptsExhausted

  datatype IdentityRow = IdentityRow(fp: Digest, completedAt: Option<Time>)

  /** Legacy attempts table: one row per identity; the fingerprint is an ordinary column. */
  datatype LegacyRow = LegacyRow(fp: Derived, attempts: nat, terminal: bool)

  datatype CounterRow = CounterRow(attempts: nat, terminal: bool)

  datatype TerminalRow = TerminalRow(attempts: nat, kind: CloseKind, closedAt: Time, confirmedAt: Option<Time>)

  datatype Tables = Tables(
    identities: map<Identity, IdentityRow>,
    legacy: map<Identity, LegacyRow>,
    generations: map<Cycle, CounterRow>,
    terminal: map<Cycle, TerminalRow>)

  const EMPTY := Tables(map[], map[], map[], map[])

  function Row<K, V>(m: map<K, V>, k: K): (r: Option<V>)
    ensures r.Some? <==> k in m
  {
    if k in m then Some(m[k]) else None
  }

  predicate Completed(db: Tables, id: Identity) {
    id in db.identities && db.identities[id].completedAt.Some?
  }

  /** The identity was completed with exactly this content. */
  predicate CompletedAs(db: Tables, id: Identity, fp: Digest) {
    Completed(db, id) && db.identities[id].fp == fp
  }

  /** The counter row of a cycle, whichever of the two attempt tables holds it. */
  function CounterAt(db: Tables, c: Cycle): Option<CounterRow> {
    if c.fp.Base? then
      if c.id in db.legacy then Some(CounterRow(db.legacy[c.id].attempts, db.legacy[c.id].terminal)) else None
    else Row(db.generations, c)
  }

  predicate HasAttempts(db: Tables, id: Identity) {
    id in db.legacy || exists c | c in db.generations :: c.id == id
  }

  /** The row statements issued while one delivery is processed. */
  datatype Statement =
    | InsertIdentity(id: Identity, fp: Digest)
    | MarkComplete(id: Identity, at: Time)
    | Bump(c: Cycle)
    | MarkTerminal(c: Cycle)
    | PreserveZero(c: Cycle)
    | Record(c: Cycle, attempts: nat, kind: CloseKind, at: Time)

  function Target(s: Statement): Identity {
    match s
    case InsertIdentity(id, _) => id
    case MarkComplete(id, _) => id
    case Bump(c) => c.id
    case MarkTerminal(c) => c.id
    case PreserveZero(c) => c.id
    case Record(c, _, _, _) => c.id
  }

  /** Writes the row a statement leaves at its key; None means that no row was inserted or matched. */
  function Put<K, V>(m: map<K, V>, k: K, v: Option<V>): map<K, V> {
    if v.Some? then m[k := v.value] else m
  }

  function IdentityAfter(s: Statement, row: Option<IdentityRow>): Option<IdentityRow>
    requires s.InsertIdentity? || s.MarkComplete?
  {
    match s
    case InsertIdentity(_, fp) => if row.Some? then row else Some(IdentityRow(fp, None))
    case MarkComplete(_, at) => if row.Some? then Some(row.value.(completedAt := Some(at))) else None
  }

  predicate OnCounter(s: Statement) {
    s.Bump? || s.MarkTerminal? || s.PreserveZero?
  }

  function LegacyAfter(s: Statement, row: Option<LegacyRow>): Option<LegacyRow>
    requires OnCounter(s)
  {
    match s
    case Bump(c) =>
      if row.Some? then Some(row.value.(attempts := row.value.attempts + 1)) else Some(LegacyRow(c.fp, 1, false))
    case MarkTerminal(_) => if row.Some? then Some(row.value.(terminal := true)) else None
    case PreserveZero(c) => if row.Some? then row else Some(LegacyRow(c.fp, 0, false))
  }

  function GenerationAfter(s: Statement, row: Option<CounterRow>): Option<CounterRow>
    requires OnCounter(s)
  {
    match s
    case Bump(_) =>
      if row.Some? then Some(row.value.(attempts := row.value.attempts + 1)) else Some(CounterRow(1, false))
    case MarkTerminal(_) => if row.Some? then Some(row.value.(terminal := true)) else None
    case PreserveZero(_) => if row.Some? then row else Some(CounterRow(0, false))
  }

  function TerminalAfter(s: Statement, row: Option<TerminalRow>): Option<TerminalRow>
    requires s.Record?
  {
    if row.Some? then Some(row.value.(confirmedAt := None))
    else Some(TerminalRow(s.attempts, s.kind, s.at, None))
  }

  /** Effect of one statement: ON CONFLICT clauses and UPDATEs that match no row change nothing. */
  function Exec(db: Tables, s: Statement): Tables {
    if s.InsertIdentity? || s.MarkComplete? then
      db.(identities := Put(db.identities, s.id, IdentityAfter(s, Row(db.identities, s.id))))
    else if s.Record? then
      db.(terminal := Put(db.terminal, s.c, TerminalAfter(s, Row(db.terminal, s.c))))
    else if s.c.fp.Base? then
      db.(legacy := Put(db.legacy, s.c.id, LegacyAfter(s, Row(db.legacy, s.c.id))))
    else
      db.(generations := Put(db.generations, s.c, GenerationAfter(s, Row(db.generations, s.c))))
  }

  function ExecAll(db: Tables, ss: seq<Statement>): Tables
    decreases |ss|
  {
    if ss == [] then db else ExecAll(Exec(db, ss[0]), ss[1..])
  }

  lemma {:induction false} ExecAllAppend(db: Tables, a: seq<Statement>, b: seq<Statement>)
    ensures ExecAll(db, a + b) == ExecAll(ExecAll(db, a), b)
    decreases |a|
  {
    if a == [] {
      assert a + b == b;
    } else {
      assert (a + b)[1..] == a[1..] + b;
      ExecAllAppend(Exec(db, a[0]), a[1..], b);
    }
  }

  // ---------------------------------------------------------------- locality

  /** Two databases hold the same rows, of every kind, for one identity. */
  ghost predicate SameRows(a: Tables, b: Tables, id: Identity) {
    && Row(a.identities, id) == Row(b.identities, id)
    && Row(a.legacy, id) == Row(b.legacy, id)
    && (forall d :: Row(a.generations, Cycle(id, d)) == Row(b.generations, Cycle(id, d)))
    && (forall d :: Row(a.terminal, Cycle(id, d)) == Row(b.terminal, Cycle(id, d)))
  }

  lemma RowsExtensional<K, V>(a: map<K, V>, b: map<K, V>)
    requires forall k :: Row(a, k) == Row(b, k)
    ensures a == b
  {
    forall k ensures k in a <==> k in b {
      assert Row(a, k) == Row(b, k);
    }
    forall k | k in a ensures a[k] == b[k] {
      assert Row(a, k) == Row(b, k);
    }
  }

  /** Databases that agree row by row on every identity are equal. */
  lemma TablesExtensional(a: Tables, b: Tables)
    requires forall id :: SameRows(a, b, id)
    ensures a == b
  {
    forall id ensures Row(a.identities, id) == Row(b.identities, id) && Row(a.legacy, id) == Row(b.legacy, id) {
      assert SameRows(a, b, id);
    }
    forall c ensures Row(a.generations, c) == Row(b.generations, c) && Row(a.terminal, c) == Row(b.terminal, c) {
      assert SameRows(a, b, c.id);
      assert c == Cycle(c.id, c.fp);
    }
    RowsExtensional(a.identities, b.identities);
    RowsExtensional(a.legacy, b.legacy);
    RowsExtensional(a.generations, b.generations);
    RowsExtensional(a.terminal, b.terminal);
  }

  lemma PutRow<K, V>(m: map<K, V>, k: K, v: Option<V>, k': K)
    ensures Row(Put(m, k, v), k') == if k' == k && v.Some? then v else Row(m, k')
  {
  }

  lemma ExecFrame(db: Tables, s: Statement, id: Identity)
    requires Target(s) != id
    ensures SameRows(db, Exec(db, s), id)
  {
    hide Put, Row, IdentityAfter, TerminalAfter, LegacyAfter, GenerationAfter;
    if s.InsertIdentity? || s.MarkComplete? {
      PutRow(db.identities, s.id, IdentityAfter(s, Row(db.identities, s.id)), id);
    } else if s.Record? {
      forall d ensures Row(db.terminal, Cycle(id, d)) == Row(Exec(db, s).terminal, Cycle(id, d)) {
        PutRow(db.terminal, s.c, TerminalAfter(s, Row(db.terminal, s.c)), Cycle(id, d));
      }
    } else if s.c.fp.Base? {
      PutRow(db.legacy, s.c.id, LegacyAfter(s, Row(db.legacy, s.c.id)), id);
    } else {
      forall d ensures Row(db.generations, Cycle(id, d)) == Row(Exec(db, s).generations, Cycle(id, d)) {
        PutRow(db.generations, s.c, GenerationAfter(s, Row(db.generations, s.c)), Cycle(id, d));
      }
    }
  }

  lemma PutLocal<K, V>(a: map<K, V>, b: map<K, V>, k: K, v: Option<V>, k': K)
    requires Row(a, k') == Row(b, k')
    ensures Row(Put(a, k, v), k') == Row(Put(b, k, v), k')
  {
    PutRow(a, k, v, k');
    PutRow(b, k, v, k');
  }

  lemma ExecLocalTerminal(a: Tables, b: Tables, s: Statement)
    requires s.Record?
    requires SameRows(a, b, s.c.id)
    ensures SameRows(Exec(a, s), Exec(b, s), s.c.id)
  {
    assert s.c == Cycle(s.c.id, s.c.fp);
    var v := TerminalAfter(s, Row(a.terminal, s.c));
    forall d ensures Row(Exec(a, s).terminal, Cycle(s.c.id, d)) == Row(Exec(b, s).terminal, Cycle(s.c.id, d)) {
      PutLocal(a.terminal, b.terminal, s.c, v, Cycle(s.c.id, d));
    }
  }

  lemma ExecLocalGeneration(a: Tables, b: Tables, s: Statement)
    requires OnCounter(s) && s.c.fp.Gen?
    requires SameRows(a, b, s.c.id)
    ensures SameRows(Exec(a, s), Exec(b, s), s.c.id)
  {
    hide Put, GenerationAfter;
    assert s.c == Cycle(s.c.id, s.c.fp);
    var v := GenerationAfter(s, Row(a.generations, s.c));
    forall d
      ensures Row(Exec(a, s).generations, Cycle(s.c.id, d)) == Row(Exec(b, s).generations, Cycle(s.c.id, d))
    {
      PutLocal(a.generations, b.generations, s.c, v, Cycle(s.c.id, d));
    }
  }

  /** A statement's effect on its identity is decided by that identity's rows. */
  lemma ExecLocal(a: Tables, b: Tables, s: Statement)
    requires SameRows(a, b, Target(s))
    ensures SameRows(Exec(a, s), Exec(b, s), Target(s))
  {
    if s.InsertIdentity? || s.MarkComplete? {
      PutLocal(a.identities, b.identities, s.id, IdentityAfter(s, Row(a.identities, s.id)), s.id);
    } else if s.Record? {
      ExecLocalTerminal(a, b, s);
    } else if s.c.fp.Base? {
      PutLocal(a.legacy, b.legacy, s.c.id, LegacyAfter(s, Row(a.legacy, s.c.id)), s.c.id);
    } else {
      ExecLocalGeneration(a, b, s);
    }
  }

  /** The statements of a transaction that touch one identity, in order. */
  function Project(ss: seq<Statement>, id: Identity): seq<Statement> {
    if ss == [] then []
    else (if Target(ss[0]) == id then [ss[0]] else []) + Project(ss[1..], id)
  }

  lemma {:induction false} ProjectAppend(a: seq<Statement>, b: seq<Statement>, id: Identity)
    ensures Project(a + b, id) == Project(a, id) + Project(b, id)
  {
    if a == [] {
      assert a + b == b;
    } else {
      assert (a + b)[1..] == a[1..] + b;
      ProjectAppend(a[1..], b, id);
    }
  }

  /** What a transaction does to an identity is decided by that identity's own statements. */
  lemma {:induction false} ExecAllProject(a: Tables, b: Tables, ss: seq<Statement>, id: Identity)
    requires SameRows(a, b, id)
    ensures SameRows(ExecAll(a, ss), ExecAll(b, Project(ss, id)), id)
    decreases |ss|
  {
    if ss != [] {
      var s := ss[0];
      if Target(s) == id {
        ExecLocal(a, b, s);
        assert Project(ss, id) == [s] + Project(ss[1..], id);
        assert Project(ss, id)[1..] == Project(ss[1..], id);
        ExecAllProject(Exec(a, s), Exec(b, s), ss[1..], id);
      } else {
        ExecFrame(a, s, id);
        assert Project(ss, id) == Project(ss[1..], id);
        ExecAllProject(Exec(a, s), b, ss[1..], id);
      }
    }
  }

  /** Reordering statements across identities never changes the committed tables. */
  lemma TransactionsAgree(db: Tables, x: seq<Statement>, y: seq<Statement>)
    requires forall id :: Project(x, id) == Project(y, id)
    ensures ExecAll(db, x) == ExecAll(db, y)
  {
    forall id ensures SameRows(ExecAll(db, x), ExecAll(db, y), id) {
      ExecAllProject(db, db, x, id);
      ExecAllProject(db, db, y, id);
      assert Project(x, id) == Project(y, id);
    }
    TablesExtensional(ExecAll(db, x), ExecAll(db, y));
  }
}
