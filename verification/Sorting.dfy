/** Byte-wise string order and the sorting the library routines perform. */
module Sorting {

  /** Lexicographic order on strings, as Go compares them. */
  predicate LexLe(a: string, b: string) {
    a == "" || (b != "" && (a[0] < b[0] || (a[0] == b[0] && LexLe(a[1..], b[1..]))))
  }

  lemma {:induction false} LexTotal(a: string, b: string)
    ensures LexLe(a, b) || LexLe(b, a)
  {
    if a != "" && b != "" && a[0] == b[0] {
      LexTotal(a[1..], b[1..]);
    }
  }

  lemma {:induction false} LexTransitive(a: string, b: string, c: string)
    requires LexLe(a, b) && LexLe(b, c)
    ensures LexLe(a, c)
  {
    if a != "" && a[0] == b[0] == c[0] {
      LexTransitive(a[1..], b[1..], c[1..]);
    }
  }

  lemma {:induction false} LexAntisymmetric(a: string, b: string)
    requires LexLe(a, b) && LexLe(b, a)
    ensures a == b
  {
    if a != "" {
      LexAntisymmetric(a[1..], b[1..]);
      assert a == [a[0]] + a[1..] && b == [b[0]] + b[1..];
    }
  }

  ghost predicate TotalPreorder<T(!new)>(le: (T, T) -> bool) {
    && (forall x, y :: le(x, y) || le(y, x))
    && (forall x, y, z :: le(x, y) && le(y, z) ==> le(x, z))
  }

  ghost predicate SortedBy<T>(s: seq<T>, le: (T, T) -> bool) {
    forall i, j | 0 <= i < j < |s| :: le(s[i], s[j])
  }

  lemma InsertSorted<T(!new)>(s: seq<T>, k: nat, x: T, le: (T, T) -> bool)
    requires SortedBy(s, le) && k <= |s|
    requires forall i | 0 <= i < k :: le(s[i], x)
    requires forall i | k <= i < |s| :: le(x, s[i])
    ensures SortedBy(s[..k] + [x] + s[k..], le)
  {
    var r := s[..k] + [x] + s[k..];
    forall i, j | 0 <= i < j < |r| ensures le(r[i], r[j]) {
      var i', j' := if i > k then i - 1 else i, if j > k then j - 1 else j;
      assert i != k ==> r[i] == s[i'];
      assert j != k ==> r[j] == s[j'];
    }
  }

  lemma InsertMembers<T>(s: seq<T>, k: nat, x: T)
    requires k <= |s|
    ensures multiset(s[..k] + [x] + s[k..]) == multiset(s) + multiset{x}
  {
    assert s == s[..k] + s[k..];
  }

  /** Places x in a sorted list, after the elements that may precede it. */
  method Insert<T(!new)>(s: seq<T>, x: T, le: (T, T) -> bool) returns (r: seq<T>)
    requires TotalPreorder(le) && SortedBy(s, le)
    ensures SortedBy(r, le) && multiset(r) == multiset(s) + multiset{x}
  {
    var k := |s|;
    while k > 0 && !le(s[k - 1], x)
      invariant 0 <= k <= |s|
      invariant forall i | k <= i < |s| :: le(x, s[i])
    {
      k := k - 1;
    }
    forall i | 0 <= i < k ensures le(s[i], x) {
      assert le(s[k - 1], x);
      if i < k - 1 {
        assert le(s[i], s[k - 1]);
      }
    }
    r := s[..k] + [x] + s[k..];
    InsertSorted(s, k, x, le);
    InsertMembers(s, k, x);
  }

  method Sort<T(!new)>(s: seq<T>, le: (T, T) -> bool) returns (r: seq<T>)
    requires TotalPreorder(le)
    ensures SortedBy(r, le) && multiset(r) == multiset(s)
  {
    r := [];
    for i := 0 to |s|
      invariant SortedBy(r, le) && multiset(r) == multiset(s[..i])
    {
      assert s[..i + 1] == s[..i] + [s[i]];
      r := Insert(r, s[i], le);
    }
    assert s[..|s|] == s;
  }

  /** Sorting a strictly ordered list changes nothing. */
  lemma {:induction false} StrictlySortedAlready<T(!new)>(xs: seq<T>, ys: seq<T>, le: (T, T) -> bool)
    requires forall i, j | 0 <= i < j < |xs| :: le(xs[i], xs[j]) && !le(xs[j], xs[i])
    requires SortedBy(ys, le) && multiset(ys) == multiset(xs)
    ensures ys == xs
    decreases |xs|
  {
    SameLength(xs, ys);
    if xs != [] {
      FirstsMeet(xs, ys, le);
      WithoutFirst(xs);
      WithoutFirst(ys);
      assert SortedBy(ys[1..], le);
      StrictlySortedAlready(xs[1..], ys[1..], le);
    }
  }

  lemma SameLength<T>(xs: seq<T>, ys: seq<T>)
    requires multiset(ys) == multiset(xs)
    ensures |ys| == |xs|
  {
    assert |multiset(xs)| == |xs| && |multiset(ys)| == |ys|;
  }

  lemma TwiceCounts<T>(r: seq<T>, i: nat, j: nat)
    requires i < j < |r|
    ensures r[i] == r[j] ==> multiset(r)[r[i]] >= 2
  {
    assert r == r[..i] + [r[i]] + r[i + 1..j] + [r[j]] + r[j + 1..];
  }

  lemma WithoutFirst<T>(xs: seq<T>)
    requires xs != []
    ensures multiset(xs[1..]) == multiset(xs) - multiset{xs[0]} && xs == [xs[0]] + xs[1..]
  {
    assert xs == [xs[0]] + xs[1..];
  }

  lemma FirstsMeet<T(!new)>(xs: seq<T>, ys: seq<T>, le: (T, T) -> bool)
    requires forall i, j | 0 <= i < j < |xs| :: le(xs[i], xs[j]) && !le(xs[j], xs[i])
    requires SortedBy(ys, le) && multiset(ys) == multiset(xs) && |xs| == |ys| > 0
    ensures ys[0] == xs[0]
  {
    assert ys[0] in multiset(ys) && xs[0] in multiset(xs);
    var i :| 0 <= i < |xs| && xs[i] == ys[0];
    var j :| 0 <= j < |ys| && ys[j] == xs[0];
    assert j == 0 || le(ys[0], ys[j]);
  }
}
