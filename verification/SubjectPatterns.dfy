/** NATS subject patterns: what they match, and when one covers another. */
module SubjectPatterns {
  import opened Segments

  type Token = string

  const STAR: Token := "*"
  const TAIL: Token := ">"

  /** White space as Unicode defines it; a character of a subject stands for one code point. */
  predicate IsSpace(c: char) {
    || '\t' <= c <= '\r' || c in {' ', '\U{85}', '\U{a0}', '\U{1680}', '\U{2028}', '\U{2029}', '\U{202f}', '\U{205f}', '\U{3000}'}
    || '\U{2000}' <= c <= '\U{200a}'
  }

  predicate IsControl(c: char) {
    c < ' ' || '\U{7f}' <= c <= '\U{9f}'
  }

  predicate Visible(c: char) {
    !IsSpace(c) && !IsControl(c) && c != '.' && c != '*' && c != '>'
  }

  /** A literal token: not empty, no dot, no wildcard, no white space or control character. */
  predicate Literal(t: Token) {
    t != "" && forall k | 0 <= k < |t| :: Visible(t[k])
  }

  predicate ValidPattern(p: seq<Token>) {
    p != [] && forall k | 0 <= k < |p| :: p[k] == STAR || Literal(p[k]) || (p[k] == TAIL && k == |p| - 1)
  }

  predicate Concrete(s: seq<Token>) {
    forall k | 0 <= k < |s| :: Literal(s[k])
  }

  lemma Wildcards(t: Token)
    requires Literal(t)
    ensures t != STAR && t != TAIL
  {
    assert STAR[0] == '*' && TAIL[0] == '>';
  }

  /** A star stands for exactly one token, the final wildcard for one or more. */
  predicate Matches(p: seq<Token>, s: seq<Token>) {
    if p == [] then s == []
    else if p[0] == TAIL then |p| == 1 && s != []
    else s != [] && (p[0] == STAR || p[0] == s[0]) && Matches(p[1..], s[1..])
  }

  /** The token-by-token test of one pattern against another. */
  predicate Covers(d: seq<Token>, c: seq<Token>) {
    if d == [] then c == []
    else if d[0] == TAIL then |d| == 1 && c != []
    else if c == [] || c[0] == TAIL then false
    else if d[0] == STAR then Covers(d[1..], c[1..])
    else c[0] != STAR && d[0] == c[0] && Covers(d[1..], c[1..])
  }

  method SubjectPatternCovers(desired: string, current: string) returns (ok: bool)
    ensures ok <==> Covers(Split(desired), Split(current))
  {
    var d, c := Split(desired), Split(current);
    assert d[0..] == d && c[0..] == c;
    for i := 0 to |d|
      invariant i <= |c|
      invariant Covers(d, c) <==> Covers(d[i..], c[i..])
    {
      CoversStep(d, c, i);
      if d[i] == TAIL {
        return i == |d| - 1 && i < |c|;
      }
      if i >= |c| {
        return false;
      }
      if c[i] == TAIL {
        return false;
      }
      if d[i] == STAR {
        continue;
      }
      if c[i] == STAR || d[i] != c[i] {
        return false;
      }
    }
    return |d| == |c|;
  }

  lemma CoversStep(d: seq<Token>, c: seq<Token>, i: nat)
    requires i < |d| && i <= |c|
    ensures Covers(d[i..], c[i..]) <==>
              if d[i] == TAIL then i == |d| - 1 && i < |c|
              else i < |c| && c[i] != TAIL && (d[i] == STAR || (c[i] != STAR && d[i] == c[i]))
                   && Covers(d[i + 1..], c[i + 1..])
  {
    assert d[i..][0] == d[i] && d[i..][1..] == d[i + 1..];
    if i < |c| {
      assert c[i..][0] == c[i] && c[i..][1..] == c[i + 1..];
    }
  }

  // ---------------------------------------------------------------- one pattern against one pattern

  /** Sound: what the covered pattern matches, the covering one matches. */
  lemma {:induction false} CoversIsSound(d: seq<Token>, c: seq<Token>, s: seq<Token>)
    requires Covers(d, c) && Matches(c, s) && Concrete(s)
    ensures Matches(d, s)
  {
    if d != [] && d[0] != TAIL {
      CoversIsSound(d[1..], c[1..], s[1..]);
    }
  }

  /** A subject that a pattern matches: its stars become the given token. */
  function Instance(c: seq<Token>, f: Token): seq<Token> {
    if c == [] then [] else [if c[0] == STAR || c[0] == TAIL then f else c[0]] + Instance(c[1..], f)
  }

  predicate Tidy(c: seq<Token>) {
    forall k | 0 <= k < |c| :: c[k] == STAR || Literal(c[k]) || (c[k] == TAIL && k == |c| - 1)
  }

  lemma {:induction false} InstanceMatches(c: seq<Token>, f: Token)
    requires Tidy(c) && Literal(f)
    ensures Matches(c, Instance(c, f)) && Concrete(Instance(c, f)) && |Instance(c, f)| == |c|
  {
    if c != [] {
      InstanceMatches(c[1..], f);
      if Literal(c[0]) {
        Wildcards(c[0]);
      }
    }
  }

  /** A subject that c matches and d does not. */
  function Witness(d: seq<Token>, c: seq<Token>, f: Token): seq<Token> {
    if d == [] || c == [] then Instance(c, f)
    else if c[0] == TAIL then if d[0] == STAR && |d| == 1 then [f, f] else [f]
    else
      var head := if c[0] == STAR then f else c[0];
      if d[0] == STAR || d[0] == head then [head] + Witness(d[1..], c[1..], f)
      else [head] + Instance(c[1..], f)
  }

  /** Complete: a pattern that does not cover misses a concrete subject. */
  lemma {:induction false} WitnessSeparates(d: seq<Token>, c: seq<Token>, f: Token)
    requires Tidy(d) && Tidy(c) && Literal(f) && f !in d && !Covers(d, c)
    ensures var s := Witness(d, c, f); Concrete(s) && Matches(c, s) && !Matches(d, s)
    ensures c != [] ==> Witness(d, c, f) != []
  {
    InstanceMatches(c, f);
    Wildcards(f);
    if d != [] && c != [] {
      if Literal(c[0]) {
        Wildcards(c[0]);
      }
      if Literal(d[0]) {
        Wildcards(d[0]);
      }
      if c[0] == TAIL {
        TailWitness(d, c, f);
      } else {
        var head := if c[0] == STAR then f else c[0];
        InstanceMatches(c[1..], f);
        if d[0] == STAR || d[0] == head {
          WitnessSeparates(d[1..], c[1..], f);
        }
      }
    }
  }

  lemma TailIsLast(c: seq<Token>, k: nat)
    requires Tidy(c) && k < |c|
    ensures c[k] == TAIL ==> k == |c| - 1
  {
    assert TAIL[0] == '>' && STAR[0] == '*';
    if Literal(c[k]) {
      Wildcards(c[k]);
    }
  }

  lemma TailWitness(d: seq<Token>, c: seq<Token>, f: Token)
    requires Tidy(d) && Tidy(c) && d != [] && c != [] && c[0] == TAIL && d[0] != TAIL && Literal(f) && f !in d
    ensures var s := Witness(d, c, f); Concrete(s) && Matches(c, s) && !Matches(d, s)
  {
    Wildcards(f);
    TailIsLast(c, 0);
    var s := Witness(d, c, f);
    assert s[1..] == (if d[0] == STAR && |d| == 1 then [f] else []);
    assert |d| > 1 ==> !Matches(d[1..], []);
  }

  function Repeat<T>(c: T, n: nat): (r: seq<T>)
    ensures |r| == n && forall k | 0 <= k < n :: r[k] == c
  {
    seq(n, _ => c)
  }

  /** Over an unbounded token alphabet there is always a token that no given pattern mentions. */
  lemma {:induction false} FreshToken(ds: seq<seq<Token>>) returns (f: Token, longest: nat)
    ensures Literal(f) && forall k | 0 <= k < |ds| :: f !in ds[k] && |ds[k]| <= longest
    ensures forall k, i | 0 <= k < |ds| && 0 <= i < |ds[k]| :: |ds[k][i]| < |f|
  {
    if ds == [] {
      f, longest := "x", 0;
    } else {
      var n := |ds| - 1;
      var g, l := FreshToken(ds[..n]);
      var m := LongestToken(ds[n]);
      f := Repeat('x', |g| + m + 1);
      longest := l + |ds[n]|;
      forall k | 0 <= k < |ds| ensures f !in ds[k] && |ds[k]| <= longest
                               ensures forall i | 0 <= i < |ds[k]| :: |ds[k][i]| < |f| {
        assert k < n ==> ds[..n][k] == ds[k];
        assert forall i | 0 <= i < |ds[k]| :: |ds[k][i]| < |f|;
      }
    }
  }

  lemma {:induction false} LongestToken(d: seq<Token>) returns (m: nat)
    ensures forall i | 0 <= i < |d| :: |d[i]| <= m
  {
    if d == [] {
      m := 0;
    } else {
      m := LongestToken(d[1..]);
      m := m + |d[0]|;
      assert forall i | 0 < i < |d| :: d[i] == d[1..][i - 1];
    }
  }

  /** Together the given patterns match every concrete subject of c. */
  ghost predicate Jointly(ds: seq<seq<Token>>, c: seq<Token>) {
    forall s | s != [] && Concrete(s) && Matches(c, s) :: exists k | 0 <= k < |ds| :: Matches(ds[k], s)
  }

  /** The token test is exact: it holds iff every concrete subject of one pattern is one of the other. */
  lemma CoversExactly(d: seq<Token>, c: seq<Token>)
    requires ValidPattern(d) && ValidPattern(c)
    ensures Covers(d, c) <==> forall s | s != [] && Concrete(s) && Matches(c, s) :: Matches(d, s)
  {
    if Covers(d, c) {
      forall s | s != [] && Concrete(s) && Matches(c, s) ensures Matches(d, s) {
        CoversIsSound(d, c, s);
      }
    } else {
      var f, _ := FreshToken([d]);
      assert f !in [d][0];
      WitnessSeparates(d, c, f);
    }
  }

  // ---------------------------------------------------------------- lists of patterns

  predicate CoveredBySome(desired: seq<string>, current: string) {
    exists j | 0 <= j < |desired| :: Covers(Split(desired[j]), Split(current))
  }

  /** Every existing pattern must be covered by a single desired one. */
  method IsSubjectSuperset(desired: seq<string>, current: seq<string>) returns (ok: bool)
    ensures ok <==> forall i | 0 <= i < |current| :: CoveredBySome(desired, current[i])
  {
    for i := 0 to |current|
      invariant forall n | 0 <= n < i :: CoveredBySome(desired, current[n])
    {
      var covered := false;
      for j := 0 to |desired|
        invariant !covered
        invariant forall n | 0 <= n < j :: !Covers(Split(desired[n]), Split(current[i]))
      {
        covered := SubjectPatternCovers(desired[j], current[i]);
        if covered {
          break;
        }
      }
      if !covered {
        return false;
      }
    }
    return true;
  }

  /** The list check is sound: an update it lets through loses no subject. */
  lemma ListCheckIsSound(ds: seq<seq<Token>>, c: seq<Token>, j: nat)
    requires j < |ds| && Covers(ds[j], c)
    ensures Jointly(ds, c)
  {
    forall s | s != [] && Concrete(s) && Matches(c, s) ensures exists k | 0 <= k < |ds| :: Matches(ds[k], s) {
      CoversIsSound(ds[j], c, s);
    }
  }

  /** p is covered, then t stars. */
  predicate Stars(d: seq<Token>, p: seq<Token>, t: nat) {
    |d| == |p| + t && Covers(d[..|p|], p) && forall i | |p| <= i < |d| :: d[i] == STAR
  }

  /** p is covered, then j stars and the final wildcard. */
  predicate StarsTail(d: seq<Token>, p: seq<Token>, j: nat) {
    && |d| == |p| + j + 1 && Covers(d[..|p|], p) && d[|p| + j] == TAIL
    && forall i | |p| <= i < |p| + j :: d[i] == STAR
  }

  predicate Plainly(p: seq<Token>) {
    forall k | 0 <= k < |p| :: p[k] == STAR || Literal(p[k])
  }

  /** How a pattern can match t unmentioned tokens. */
  lemma {:induction false} ShapeOfTail(d: seq<Token>, f: Token, t: nat)
    requires Tidy(d) && Literal(f) && f !in d && t > 0 && Matches(d, Repeat(f, t))
    ensures d == [TAIL] || Stars(d, [], t) || exists j: nat | 1 <= j < t :: StarsTail(d, [], j)
    decreases t
  {
    Wildcards(f);
    var s := Repeat(f, t);
    if d[0] != TAIL {
      assert d[0] == STAR;
      assert s[1..] == Repeat(f, t - 1);
      if t > 1 {
        ShapeOfTail(d[1..], f, t - 1);
        if d[1..] == [TAIL] {
          assert StarsTail(d, [], 1);
        } else if !Stars(d[1..], [], t - 1) {
          var j: nat :| 1 <= j < t - 1 && StarsTail(d[1..], [], j);
          assert StarsTail(d, [], j + 1);
        }
      }
    }
  }

  lemma CoversHead(d: seq<Token>, p: seq<Token>)
    requires d != [] && p != [] && Covers(d[1..], p[1..]) && p[0] != TAIL && d[0] != TAIL
    requires d[0] == STAR || (p[0] != STAR && d[0] == p[0])
    ensures Covers(d, p)
  {
  }

  lemma StarsHead(d: seq<Token>, p: seq<Token>, t: nat)
    requires d != [] && p != [] && Stars(d[1..], p[1..], t) && p[0] != TAIL && d[0] != TAIL
    requires d[0] == STAR || (p[0] != STAR && d[0] == p[0])
    ensures Stars(d, p, t)
  {
    hide Covers;
    assert d[..|p|][1..] == d[1..][..|p| - 1];
    CoversHead(d[..|p|], p);
    assert forall i | |p| <= i < |d| :: d[i] == d[1..][i - 1];
  }

  lemma StarsTailHead(d: seq<Token>, p: seq<Token>, j: nat)
    requires d != [] && p != [] && StarsTail(d[1..], p[1..], j) && p[0] != TAIL && d[0] != TAIL
    requires d[0] == STAR || (p[0] != STAR && d[0] == p[0])
    ensures StarsTail(d, p, j)
  {
    hide Covers;
    assert d[..|p|][1..] == d[1..][..|p| - 1];
    CoversHead(d[..|p|], p);
    assert forall i | |p| <= i < |d| :: d[i] == d[1..][i - 1];
  }

  /** How a pattern can match an instance of p followed by t unmentioned tokens. */
  lemma {:induction false} ShapeOf(d: seq<Token>, p: seq<Token>, f: Token, t: nat)
    requires Tidy(d) && Plainly(p) && Literal(f) && f !in d && t > 0
    requires Matches(d, Instance(p, f) + Repeat(f, t))
    ensures Covers(d, p + [TAIL]) || Stars(d, p, t) || exists j: nat | 1 <= j < t :: StarsTail(d, p, j)
    decreases |p|
  {
    Wildcards(f);
    var s := Instance(p, f) + Repeat(f, t);
    if p == [] {
      assert s == Repeat(f, t);
      ShapeOfTail(d, f, t);
    } else if d[0] != TAIL {
      if Literal(p[0]) {
        Wildcards(p[0]);
      }
      assert s[1..] == Instance(p[1..], f) + Repeat(f, t);
      ShapeOf(d[1..], p[1..], f, t);
      var c := p + [TAIL];
      assert c[1..] == p[1..] + [TAIL];
      if Covers(d[1..], p[1..] + [TAIL]) {
        CoversHead(d, c);
      } else if Stars(d[1..], p[1..], t) {
        StarsHead(d, p, t);
      } else {
        var j: nat :| 1 <= j < t && StarsTail(d[1..], p[1..], j);
        StarsTailHead(d, p, j);
      }
    }
  }

  lemma {:induction false} AllStarsMatch(d: seq<Token>, s: seq<Token>)
    requires |d| == |s| && forall i | 0 <= i < |d| :: d[i] == STAR
    ensures Matches(d, s)
  {
    if d != [] {
      AllStarsMatch(d[1..], s[1..]);
    }
  }

  lemma {:induction false} StarsThenTailMatch(d: seq<Token>, s: seq<Token>, j: nat)
    requires |d| == j + 1 <= |s| && d[j] == TAIL && forall i | 0 <= i < j :: d[i] == STAR
    ensures Matches(d, s)
  {
    if j > 0 {
      StarsThenTailMatch(d[1..], s[1..], j - 1);
    }
  }

  /** A subject of p with a tail is matched by a star run of the right length. */
  lemma {:induction false} RunMatches(d: seq<Token>, p: seq<Token>, s: seq<Token>, j: nat)
    requires Tidy(d) && Plainly(p) && Concrete(s) && Matches(p + [TAIL], s) && j > 0
    requires (Stars(d, p, j) && |s| == |p| + j) || (StarsTail(d, p, j) && |s| > |p| + j)
    ensures Matches(d, s)
    decreases |p|
  {
    if p == [] {
      if Stars(d, p, j) {
        AllStarsMatch(d, s);
      } else {
        StarsThenTailMatch(d, s, j);
      }
    } else {
      if Literal(p[0]) {
        Wildcards(p[0]);
      }
      var c := p + [TAIL];
      assert c[0] == p[0] && c[1..] == p[1..] + [TAIL];
      assert d[..|p|][0] == d[0] && d[..|p|][1..] == d[1..][..|p| - 1];
      assert forall i | |p| <= i < |d| :: d[i] == d[1..][i - 1];
      TailIsLast(d, 0);
      assert d[0] != TAIL;
      assert Covers(d[1..][..|p| - 1], p[1..]) && (d[0] == STAR || d[0] == s[0]);
      RunMatches(d[1..], p[1..], s[1..], j);
    }
  }

  /** One desired pattern ends in j stars and the final wildcard, and for every shorter tail there is one
      that ends in just as many stars. */
  ghost predicate Ladder(ds: seq<seq<Token>>, p: seq<Token>, j: nat) {
    && (exists k | 0 <= k < |ds| :: StarsTail(ds[k], p, j))
    && (forall t: nat | 1 <= t <= j :: HasStars(ds, p, t))
  }

  predicate HasStars(ds: seq<seq<Token>>, p: seq<Token>, t: nat) {
    exists k | 0 <= k < |ds| :: Stars(ds[k], p, t)
  }

  predicate HasCover(ds: seq<seq<Token>>, c: seq<Token>) {
    exists k | 0 <= k < |ds| :: Covers(ds[k], c)
  }

  ghost predicate AllValid(ds: seq<seq<Token>>) {
    forall k | 0 <= k < |ds| :: ValidPattern(ds[k])
  }

  /** The probe for tails of length t: an instance of p and t tokens that no desired pattern mentions. */
  lemma Probe(ds: seq<seq<Token>>, p: seq<Token>, f: Token, t: nat) returns (k: nat)
    requires AllValid(ds) && Plainly(p) && Jointly(ds, p + [TAIL]) && Literal(f) && t > 0
    requires forall k | 0 <= k < |ds| :: f !in ds[k]
    ensures k < |ds|
    ensures Covers(ds[k], p + [TAIL]) || Stars(ds[k], p, t) || exists j: nat | 1 <= j < t :: StarsTail(ds[k], p, j)
  {
    var s := Instance(p, f) + Repeat(f, t);
    ProbeMatches(p, f, t);
    k :| 0 <= k < |ds| && Matches(ds[k], s);
    ShapeOf(ds[k], p, f, t);
  }

  lemma {:induction false} ProbeMatches(p: seq<Token>, f: Token, t: nat)
    requires Plainly(p) && Literal(f) && t > 0
    ensures var s := Instance(p, f) + Repeat(f, t); s != [] && Concrete(s) && Matches(p + [TAIL], s)
    decreases |p|
  {
    var s, c := Instance(p, f) + Repeat(f, t), p + [TAIL];
    if p == [] {
      assert s == Repeat(f, t);
    } else {
      ProbeMatches(p[1..], f, t);
      assert s[1..] == Instance(p[1..], f) + Repeat(f, t) && c[1..] == p[1..] + [TAIL];
      assert s == [s[0]] + s[1..];
      if Literal(p[0]) {
        Wildcards(p[0]);
      }
    }
  }

  lemma {:induction false} FindLadder(ds: seq<seq<Token>>, p: seq<Token>, f: Token, j: nat)
    requires AllValid(ds) && Plainly(p) && Jointly(ds, p + [TAIL]) && Literal(f)
    requires (forall k | 0 <= k < |ds| :: f !in ds[k]) && !HasCover(ds, p + [TAIL])
    requires j > 0 && exists k | 0 <= k < |ds| :: StarsTail(ds[k], p, j)
    ensures exists i: nat :: i > 0 && Ladder(ds, p, i)
    decreases j
  {
    if forall t: nat | 1 <= t <= j :: HasStars(ds, p, t) {
      assert Ladder(ds, p, j);
    } else {
      var t: nat :| 1 <= t <= j && !HasStars(ds, p, t);
      var k := Probe(ds, p, f, t);
      var i: nat :| 1 <= i < t && StarsTail(ds[k], p, i);
      FindLadder(ds, p, f, i);
    }
  }

  /** A pattern with a final wildcard is jointly covered exactly if one desired pattern covers it or the
      desired patterns form a ladder; in the second case the one-by-one check reports a false conflict. */
  lemma JointCoverWithTail(ds: seq<seq<Token>>, p: seq<Token>)
    requires AllValid(ds) && Plainly(p)
    ensures Jointly(ds, p + [TAIL]) <==> HasCover(ds, p + [TAIL]) || exists j: nat :: j > 0 && Ladder(ds, p, j)
  {
    var c := p + [TAIL];
    if HasCover(ds, c) {
      var k :| 0 <= k < |ds| && Covers(ds[k], c);
      ListCheckIsSound(ds, c, k);
    } else if j: nat :| j > 0 && Ladder(ds, p, j) {
      LadderCovers(ds, p, j);
    } else if Jointly(ds, c) {
      var f, longest := FreshToken(ds);
      var k := Probe(ds, p, f, longest + 1);
      assert |ds[k]| <= longest;
      var j: nat :| 1 <= j && StarsTail(ds[k], p, j);
      FindLadder(ds, p, f, j);
    }
  }

  lemma {:induction false} TailLength(p: seq<Token>, s: seq<Token>)
    requires Plainly(p) && Matches(p + [TAIL], s)
    ensures |s| > |p|
    decreases |p|
  {
    if p != [] {
      var c := p + [TAIL];
      if Literal(p[0]) {
        Wildcards(p[0]);
      }
      assert c[0] == p[0] && c[1..] == p[1..] + [TAIL];
      TailLength(p[1..], s[1..]);
    }
  }

  lemma LadderCovers(ds: seq<seq<Token>>, p: seq<Token>, j: nat)
    requires AllValid(ds) && Plainly(p) && j > 0 && Ladder(ds, p, j)
    ensures Jointly(ds, p + [TAIL])
  {
    forall s | s != [] && Concrete(s) && Matches(p + [TAIL], s) ensures exists k | 0 <= k < |ds| :: Matches(ds[k], s) {
      TailLength(p, s);
      var t := |s| - |p|;
      if t <= j {
        assert HasStars(ds, p, t);
        var k :| 0 <= k < |ds| && Stars(ds[k], p, t);
        RunMatches(ds[k], p, s, t);
      } else {
        var k :| 0 <= k < |ds| && StarsTail(ds[k], p, j);
        RunMatches(ds[k], p, s, j);
      }
    }
  }

  /** Without a final wildcard the one-by-one check is exact. */
  lemma JointCoverWithoutTail(ds: seq<seq<Token>>, c: seq<Token>)
    requires AllValid(ds) && ValidPattern(c) && Plainly(c)
    ensures Jointly(ds, c) <==> HasCover(ds, c)
  {
    if HasCover(ds, c) {
      var k :| 0 <= k < |ds| && Covers(ds[k], c);
      ListCheckIsSound(ds, c, k);
    } else if Jointly(ds, c) {
      var f, _ := FreshToken(ds);
      InstanceMatches(c, f);
      var k :| 0 <= k < |ds| && Matches(ds[k], Instance(c, f));
      InstanceCovered(ds[k], c, f);
    }
  }

  lemma {:induction false} InstanceCovered(d: seq<Token>, c: seq<Token>, f: Token)
    requires Tidy(d) && Plainly(c) && Literal(f) && f !in d && Matches(d, Instance(c, f))
    ensures Covers(d, c)
  {
    Wildcards(f);
    if d != [] && d[0] != TAIL {
      if Literal(c[0]) {
        Wildcards(c[0]);
      }
      assert Instance(c, f)[1..] == Instance(c[1..], f);
      InstanceCovered(d[1..], c[1..], f);
    }
  }

  /** The smallest false conflict: "*" and "*.>" together match all that ">" matches. */
  lemma FalseConflict()
    ensures var ds := [[STAR], [STAR, TAIL]];
            AllValid(ds) && Jointly(ds, [TAIL]) && !HasCover(ds, [TAIL])
  {
    var ds := [[STAR], [STAR, TAIL]];
    assert [STAR][..0] == [] && [STAR, TAIL][..0] == [];
    assert Stars(ds[0], [], 1) && StarsTail(ds[1], [], 1);
    assert Ladder(ds, [], 1);
    LadderCovers(ds, [], 1);
    assert [] + [TAIL] == [TAIL];
  }
}
