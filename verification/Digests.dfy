/** The byte streams that are hashed to identify a dead-lettered NATS message: length-prefixed fields
    over subject, wire mode, headers and payload. */
module Digests {
  import opened Decimal
  import opened Sorting
  import opened KafkaControl

  type HeaderMap = map<string, seq<string>>

  /** One header as it is written: its name and its values in order. */
  datatype Line = Line(name: string, values: seq<string>)

  function Field(s: string): string {
    Digits(|s|) + ":" + s
  }

  /** A count: a field of its own in quarantine digests, bare in replay digests. */
  function Count(n: nat, boxed: bool): string {
    if boxed then Field(Digits(n)) else Digits(n) + ":"
  }

  function Values(vs: seq<string>): string {
    if vs == [] then "" else Field(vs[0]) + Values(vs[1..])
  }

  function LineBytes(l: Line, boxed: bool): string {
    Field(l.name) + Count(|l.values|, boxed) + Values(l.values)
  }

  function Lines(ls: seq<Line>, boxed: bool): string {
    if ls == [] then "" else LineBytes(ls[0], boxed) + Lines(ls[1..], boxed)
  }

  const QUARANTINE_V2 := "gomessenger/quarantine/v2"

  function QuarantineBytes(subject: string, mode: string, ls: seq<Line>, data: string): string {
    Field(QUARANTINE_V2) + Field(subject) + Field(mode) + Count(|ls|, true) + Lines(ls, true) + Field(data)
  }

  function ReplayBytes(subject: string, mode: string, ls: seq<Line>, data: string): string {
    Field(subject) + Field(mode) + Count(|ls|, false) + Lines(ls, false) + Field(data)
  }

  // ---------------------------------------------------------------- length prefixes decode uniquely

  lemma NoColon(n: nat, k: nat)
    requires k < |Digits(n)|
    ensures Digits(n)[k] != ':'
  {
    DigitsValue(n);
  }

  lemma BareCount(m: nat, n: nat, x: string, y: string)
    requires Digits(m) + ":" + x == Digits(n) + ":" + y
    ensures m == n && x == y
  {
    var s := Digits(m) + ":" + x;
    forall k | 0 <= k < |Digits(m)| ensures s[k] != ':' {
      NoColon(m, k);
    }
    forall k | 0 <= k < |Digits(n)| ensures s[k] != ':' {
      NoColon(n, k);
    }
    assert s[|Digits(m)|] == ':' && s[|Digits(n)|] == ':';
    assert |Digits(m)| == |Digits(n)|;
    assert Digits(m) == s[..|Digits(m)|] == Digits(n);
    DigitsInjective(m, n);
    assert x == s[|Digits(m)| + 1..] && y == s[|Digits(m)| + 1..];
  }

  lemma FieldFirst(a: string, b: string, x: string, y: string)
    requires Field(a) + x == Field(b) + y
    ensures a == b && x == y
  {
    assert Field(a) + x == Digits(|a|) + ":" + (a + x);
    assert Field(b) + y == Digits(|b|) + ":" + (b + y);
    BareCount(|a|, |b|, a + x, b + y);
    assert a == (a + x)[..|a|] && b == (b + y)[..|a|];
    assert x == (a + x)[|a|..] && y == (b + y)[|a|..];
  }

  lemma CountFirst(m: nat, n: nat, boxed: bool, x: string, y: string)
    requires Count(m, boxed) + x == Count(n, boxed) + y
    ensures m == n && x == y
  {
    if boxed {
      FieldFirst(Digits(m), Digits(n), x, y);
      DigitsInjective(m, n);
    } else {
      BareCount(m, n, x, y);
    }
  }

  lemma {:induction false} ValuesFirst(a: seq<string>, b: seq<string>, x: string, y: string)
    requires |a| == |b| && Values(a) + x == Values(b) + y
    ensures a == b && x == y
  {
    if a == [] {
      assert "" + x == x && "" + y == y;
    } else {
      assert Values(a) + x == Field(a[0]) + (Values(a[1..]) + x);
      assert Values(b) + y == Field(b[0]) + (Values(b[1..]) + y);
      FieldFirst(a[0], b[0], Values(a[1..]) + x, Values(b[1..]) + y);
      ValuesFirst(a[1..], b[1..], x, y);
      assert a == [a[0]] + a[1..] && b == [b[0]] + b[1..];
    }
  }

  lemma LineFirst(a: Line, b: Line, boxed: bool, x: string, y: string)
    requires LineBytes(a, boxed) + x == LineBytes(b, boxed) + y
    ensures a == b && x == y
  {
    hide Field, Count, Values;
    var ra, rb := Values(a.values) + x, Values(b.values) + y;
    assert LineBytes(a, boxed) + x == Field(a.name) + (Count(|a.values|, boxed) + ra);
    assert LineBytes(b, boxed) + y == Field(b.name) + (Count(|b.values|, boxed) + rb);
    FieldFirst(a.name, b.name, Count(|a.values|, boxed) + ra, Count(|b.values|, boxed) + rb);
    CountFirst(|a.values|, |b.values|, boxed, ra, rb);
    ValuesFirst(a.values, b.values, x, y);
  }

  lemma LinesStep(ls: seq<Line>, boxed: bool, x: string)
    ensures ls == [] ==> Lines(ls, boxed) + x == x
    ensures ls != [] ==> Lines(ls, boxed) + x == LineBytes(ls[0], boxed) + (Lines(ls[1..], boxed) + x)
  {
    hide LineBytes;
  }

  lemma {:induction false} LinesFirst(a: seq<Line>, b: seq<Line>, boxed: bool, x: string, y: string)
    requires |a| == |b| && Lines(a, boxed) + x == Lines(b, boxed) + y
    ensures a == b && x == y
  {
    hide LineBytes, Lines;
    LinesStep(a, boxed, x);
    LinesStep(b, boxed, y);
    if a != [] {
      LineFirst(a[0], b[0], boxed, Lines(a[1..], boxed) + x, Lines(b[1..], boxed) + y);
      LinesFirst(a[1..], b[1..], boxed, x, y);
      assert a == [a[0]] + a[1..] && b == [b[0]] + b[1..];
    }
  }

  /** The replay stream determines everything it was written from. */
  lemma ReplayDecodes(s: string, m: string, ls: seq<Line>, d: string, s': string, m': string, ls': seq<Line>, d': string)
    requires ReplayBytes(s, m, ls, d) == ReplayBytes(s', m', ls', d')
    ensures s == s' && m == m' && ls == ls' && d == d'
  {
    hide Field, Count, Lines;
    var t, t' := Lines(ls, false) + Field(d), Lines(ls', false) + Field(d');
    var c, c' := Count(|ls|, false) + t, Count(|ls'|, false) + t';
    assert ReplayBytes(s, m, ls, d) == Field(s) + (Field(m) + c);
    assert ReplayBytes(s', m', ls', d') == Field(s') + (Field(m') + c');
    FieldFirst(s, s', Field(m) + c, Field(m') + c');
    FieldFirst(m, m', c, c');
    CountFirst(|ls|, |ls'|, false, t, t');
    LinesFirst(ls, ls', false, Field(d), Field(d'));
    FieldOnly(d, d');
  }

  lemma FieldOnly(a: string, b: string)
    requires Field(a) == Field(b)
    ensures a == b
  {
    assert Field(a) + "" == Field(a) && Field(b) + "" == Field(b);
    FieldFirst(a, b, "", "");
  }

  /** So does the quarantine stream. */
  lemma QuarantineDecodes(s: string, m: string, ls: seq<Line>, d: string, s': string, m': string, ls': seq<Line>, d': string)
    requires QuarantineBytes(s, m, ls, d) == QuarantineBytes(s', m', ls', d')
    ensures s == s' && m == m' && ls == ls' && d == d'
  {
    hide Field, Count, Lines, QUARANTINE_V2;
    var t, t' := Lines(ls, true) + Field(d), Lines(ls', true) + Field(d');
    var c, c' := Count(|ls|, true) + t, Count(|ls'|, true) + t';
    assert QuarantineBytes(s, m, ls, d) == Field(QUARANTINE_V2) + (Field(s) + (Field(m) + c));
    assert QuarantineBytes(s', m', ls', d') == Field(QUARANTINE_V2) + (Field(s') + (Field(m') + c'));
    FieldFirst(QUARANTINE_V2, QUARANTINE_V2, Field(s) + (Field(m) + c), Field(s') + (Field(m') + c'));
    FieldFirst(s, s', Field(m) + c, Field(m') + c');
    FieldFirst(m, m', c, c');
    CountFirst(|ls|, |ls'|, true, t, t');
    LinesFirst(ls, ls', true, Field(d), Field(d'));
    FieldOnly(d, d');
  }

  // ---------------------------------------------------------------- header maps

  /** Every key once, in strictly increasing order of the name it is written under. */
  ghost predicate Listed(h: HeaderMap, keys: seq<string>, name: string -> string) {
    && (forall i | 0 <= i < |keys| :: keys[i] in h) && (forall k | k in h :: k in keys)
    && (forall i, j | 0 <= i < j < |keys| :: LexLe(name(keys[i]), name(keys[j])) && name(keys[i]) != name(keys[j]))
  }

  function LinesOf(h: HeaderMap, keys: seq<string>, name: string -> string): (r: seq<Line>)
    requires Listed(h, keys, name)
    ensures |r| == |keys| && forall i | 0 <= i < |r| :: r[i] == Line(name(keys[i]), h[keys[i]])
  {
    seq(|keys|, i requires 0 <= i < |keys| => Line(name(keys[i]), h[keys[i]]))
  }

  /** No two keys are written under the same name. */
  ghost predicate Separate(h: HeaderMap, name: string -> string) {
    forall k, l | k in h && l in h && name(k) == name(l) :: k == l
  }

  /** Map order does not matter: there is only one such listing. */
  lemma ListedOnce(h: HeaderMap, keys: seq<string>, other: seq<string>, name: string -> string)
    requires Separate(h, name) && Listed(h, keys, name) && Listed(h, other, name)
    ensures keys == other
  {
    hide LexLe;
    var le := (a: string, b: string) => LexLe(name(a), name(b));
    forall i, j | 0 <= i < j < |keys| ensures le(keys[i], keys[j]) && !le(keys[j], keys[i]) {
      if LexLe(name(keys[j]), name(keys[i])) {
        LexAntisymmetric(name(keys[i]), name(keys[j]));
      }
    }
    SameMembers(keys, other, name);
    StrictlySortedAlready(keys, other, le);
  }

  lemma {:induction false} NamesDistinct(keys: seq<string>, name: string -> string, x: string)
    requires forall i, j | 0 <= i < j < |keys| :: name(keys[i]) != name(keys[j])
    ensures multiset(keys)[x] == if x in keys then 1 else 0
  {
    if keys != [] {
      var n := |keys| - 1;
      assert keys == keys[..n] + [keys[n]];
      NamesDistinct(keys[..n], name, x);
      if x == keys[n] {
        assert x !in keys[..n];
      }
    }
  }

  lemma SameMembers(keys: seq<string>, other: seq<string>, name: string -> string)
    requires forall i, j | 0 <= i < j < |keys| :: name(keys[i]) != name(keys[j])
    requires forall i, j | 0 <= i < j < |other| :: name(other[i]) != name(other[j])
    requires forall k :: k in keys <==> k in other
    ensures multiset(keys) == multiset(other)
  {
    forall x ensures multiset(keys)[x] == multiset(other)[x] {
      NamesDistinct(keys, name, x);
      NamesDistinct(other, name, x);
    }
  }

  /** Collects the keys in whatever order the map yields them, then sorts by the written name. */
  method SortedKeys(h: HeaderMap, name: string -> string) returns (keys: seq<string>)
    requires Separate(h, name)
    ensures Listed(h, keys, name)
  {
    keys := [];
    var left := h.Keys;
    while left != {}
      invariant left <= h.Keys && forall k :: k in keys <==> k in h.Keys - left
      invariant forall i, j | 0 <= i < j < |keys| :: keys[i] != keys[j]
      decreases left
    {
      var k :| k in left;
      assert k !in keys;
      keys := keys + [k];
      left := left - {k};
    }
    NameOrder(name);
    var found := keys;
    keys := Sort(keys, (a: string, b: string) => LexLe(name(a), name(b)));
    SortedIsListed(h, found, keys, name);
  }

  lemma NameOrder(name: string -> string)
    ensures TotalPreorder((a: string, b: string) => LexLe(name(a), name(b)))
  {
    forall x, y ensures LexLe(name(x), name(y)) || LexLe(name(y), name(x)) {
      LexTotal(name(x), name(y));
    }
    forall x, y, z | LexLe(name(x), name(y)) && LexLe(name(y), name(z)) ensures LexLe(name(x), name(z)) {
      LexTransitive(name(x), name(y), name(z));
    }
  }

  lemma SortedIsListed(h: HeaderMap, found: seq<string>, keys: seq<string>, name: string -> string)
    requires Separate(h, name) && (forall k :: k in found <==> k in h)
    requires forall i, j | 0 <= i < j < |found| :: found[i] != found[j]
    requires multiset(keys) == multiset(found)
    requires SortedBy(keys, (a: string, b: string) => LexLe(name(a), name(b)))
    ensures Listed(h, keys, name)
  {
    hide LexLe;
    Permuted(found, keys);
    forall i, j | 0 <= i < j < |keys| ensures LexLe(name(keys[i]), name(keys[j])) && name(keys[i]) != name(keys[j]) {
      assert keys[i] in keys && keys[j] in keys && keys[i] != keys[j];
    }
  }

  lemma Permuted(found: seq<string>, keys: seq<string>)
    requires forall i, j | 0 <= i < j < |found| :: found[i] != found[j]
    requires multiset(keys) == multiset(found)
    ensures forall i, j | 0 <= i < j < |keys| :: keys[i] != keys[j]
    ensures forall k :: k in keys <==> k in found
  {
    forall k ensures k in keys <==> k in found {
      assert k in keys <==> k in multiset(keys);
      assert k in found <==> k in multiset(found);
    }
    forall i, j | 0 <= i < j < |keys| ensures keys[i] != keys[j] {
      NamesDistinct(found, x => x, keys[i]);
      TwiceCounts(keys, i, j);
    }
  }

  // ---------------------------------------------------------------- writing

  lemma {:induction false} ValuesSnoc(vs: seq<string>, v: string)
    ensures Values(vs + [v]) == Values(vs) + Field(v)
  {
    if vs == [] {
      assert vs + [v] == [v];
      assert Values([v]) == Field(v) + Values([]);
    } else {
      assert (vs + [v])[1..] == vs[1..] + [v];
      ValuesSnoc(vs[1..], v);
    }
  }

  lemma {:induction false} LinesSnoc(ls: seq<Line>, l: Line, boxed: bool)
    ensures Lines(ls + [l], boxed) == Lines(ls, boxed) + LineBytes(l, boxed)
  {
    hide LineBytes, Lines;
    LinesStep(ls + [l], boxed, "");
    LinesStep(ls, boxed, LineBytes(l, boxed));
    assert Lines(ls + [l], boxed) + "" == Lines(ls + [l], boxed);
    if ls == [] {
      assert ls + [l] == [l] && [l][1..] == [];
      LinesStep([], boxed, "");
      assert LineBytes(l, boxed) + "" == LineBytes(l, boxed);
      assert Lines([], boxed) + "" == "";
    } else {
      assert (ls + [l])[1..] == ls[1..] + [l];
      LinesSnoc(ls[1..], l, boxed);
      assert Lines(ls[1..] + [l], boxed) + "" == Lines(ls[1..] + [l], boxed);
    }
  }

  method WriteValues(vs: seq<string>) returns (out: string)
    ensures out == Values(vs)
  {
    out := "";
    for n := 0 to |vs|
      invariant out == Values(vs[..n])
    {
      assert vs[..n + 1] == vs[..n] + [vs[n]];
      ValuesSnoc(vs[..n], vs[n]);
      out := out + Field(vs[n]);
    }
    assert vs[..|vs|] == vs;
  }

  method WriteLines(h: HeaderMap, keys: seq<string>, name: string -> string, boxed: bool) returns (out: string)
    requires Listed(h, keys, name)
    ensures out == Lines(LinesOf(h, keys, name), boxed)
  {
    hide Lines, LineBytes, LinesOf;
    ghost var ls := LinesOf(h, keys, name);
    out := "";
    NoLines(boxed);
    assert ls[..0] == [];
    for n := 0 to |keys|
      invariant out == Lines(ls[..n], boxed)
    {
      var values := WriteValues(h[keys[n]]);
      LineIs(h, keys, name, n, boxed, values);
      assert ls[..n + 1] == ls[..n] + [ls[n]];
      LinesSnoc(ls[..n], ls[n], boxed);
      out := out + (Field(name(keys[n])) + Count(|h[keys[n]]|, boxed) + values);
    }
    assert ls[..|keys|] == ls;
  }

  lemma NoLines(boxed: bool)
    ensures Lines([], boxed) == ""
  {
  }

  lemma LineIs(h: HeaderMap, keys: seq<string>, name: string -> string, n: nat, boxed: bool, values: string)
    requires Listed(h, keys, name) && n < |keys| && values == Values(h[keys[n]])
    ensures LineBytes(LinesOf(h, keys, name)[n], boxed)
            == Field(name(keys[n])) + Count(|h[keys[n]]|, boxed) + values
  {
    hide Field, Count, Values;
  }

  function Exact(k: string): string {
    k
  }

  function Folded(k: string): string {
    Lower(k)
  }

  /** The stream hashed for a quarantined message. */
  method QuarantineInput(subject: string, mode: string, h: HeaderMap, data: string) returns (out: string, keys: seq<string>)
    ensures Listed(h, keys, Exact)
    ensures out == QuarantineBytes(subject, mode, LinesOf(h, keys, Exact), data)
  {
    hide Field, Count, Lines, LexLe;
    keys := SortedKeys(h, Exact);
    var lines := WriteLines(h, keys, Exact, true);
    out := Field(QUARANTINE_V2) + Field(subject) + Field(mode) + Count(|keys|, true) + lines + Field(data);
  }

  /** The stream hashed for a replayable message, whose header keys differ even without regard to case. */
  method ReplayInput(subject: string, mode: string, h: HeaderMap, data: string) returns (out: string, keys: seq<string>)
    requires Separate(h, Folded)
    ensures Listed(h, keys, Folded)
    ensures out == ReplayBytes(subject, mode, LinesOf(h, keys, Folded), data)
  {
    hide Field, Count, Lines, LexLe, Folded;
    keys := SortedKeys(h, Folded);
    var lines := WriteLines(h, keys, Folded, false);
    out := Field(subject) + Field(mode) + Count(|keys|, false) + lines + Field(data);
  }

  // ---------------------------------------------------------------- the streams identify the message

  lemma SameHeaders(h: HeaderMap, keys: seq<string>, h': HeaderMap, keys': seq<string>, name: string -> string, k: string)
    requires Listed(h, keys, name) && Listed(h', keys', name) && k in h
    requires LinesOf(h, keys, name) == LinesOf(h', keys', name)
    ensures exists l :: l in h' && name(l) == name(k) && h'[l] == h[k]
  {
    hide LexLe;
    assert k in keys;
    var i :| 0 <= i < |keys| && keys[i] == k;
    assert LinesOf(h', keys', name)[i] == Line(name(k), h[k]);
    assert keys'[i] in h';
  }

  /** Equal quarantine streams come from equal subject, mode, headers and payload. */
  lemma QuarantineIdentifies(s: string, m: string, h: HeaderMap, keys: seq<string>, d: string,
                             s': string, m': string, h': HeaderMap, keys': seq<string>, d': string)
    requires Listed(h, keys, Exact) && Listed(h', keys', Exact)
    requires QuarantineBytes(s, m, LinesOf(h, keys, Exact), d) == QuarantineBytes(s', m', LinesOf(h', keys', Exact), d')
    ensures s == s' && m == m' && h == h' && d == d'
  {
    hide QuarantineBytes, Listed, LinesOf;
    QuarantineDecodes(s, m, LinesOf(h, keys, Exact), d, s', m', LinesOf(h', keys', Exact), d');
    forall k | k in h ensures k in h' && h'[k] == h[k] {
      SameHeaders(h, keys, h', keys', Exact, k);
    }
    forall k | k in h' ensures k in h {
      SameHeaders(h', keys', h, keys, Exact, k);
    }
  }

  /** The headers with their keys in lower case. */
  ghost function CaseFolded(h: HeaderMap): map<string, seq<string>>
    requires Separate(h, Folded)
  {
    map k | k in h :: Folded(k) := h[k]
  }

  /** Equal replay streams come from equal subject, mode and payload, and from headers that are equal up
      to the case of their keys. */
  lemma ReplayIdentifies(s: string, m: string, h: HeaderMap, keys: seq<string>, d: string,
                         s': string, m': string, h': HeaderMap, keys': seq<string>, d': string)
    requires Separate(h, Folded) && Separate(h', Folded)
    requires Listed(h, keys, Folded) && Listed(h', keys', Folded)
    requires ReplayBytes(s, m, LinesOf(h, keys, Folded), d) == ReplayBytes(s', m', LinesOf(h', keys', Folded), d')
    ensures s == s' && m == m' && CaseFolded(h) == CaseFolded(h') && d == d'
  {
    hide ReplayBytes, Listed, LinesOf, Folded;
    ReplayDecodes(s, m, LinesOf(h, keys, Folded), d, s', m', LinesOf(h', keys', Folded), d');
    var f, f' := CaseFolded(h), CaseFolded(h');
    forall x | x in f ensures x in f' && f'[x] == f[x] {
      var k :| k in h && Folded(k) == x;
      SameHeaders(h, keys, h', keys', Folded, k);
    }
    forall x | x in f' ensures x in f {
      var k :| k in h' && Folded(k) == x;
      SameHeaders(h', keys', h, keys, Folded, k);
    }
  }

  /** Keys that differ only in case are refused, so that replayable headers are written separately. */
  method RejectCaseDuplicates(h: HeaderMap) returns (ok: bool)
    ensures ok <==> Separate(h, Folded)
  {
    hide Folded;
    var seen: set<string> := {};
    var left := h.Keys;
    while left != {}
      invariant left <= h.Keys
      invariant forall x :: x in seen <==> exists k | k in h.Keys - left :: Folded(k) == x
      invariant forall k, l | k in h.Keys - left && l in h.Keys - left && Folded(k) == Folded(l) :: k == l
      decreases left
    {
      var k :| k in left;
      if Folded(k) in seen {
        return false;
      }
      seen := seen + {Folded(k)};
      left := left - {k};
    }
    return true;
  }
}
