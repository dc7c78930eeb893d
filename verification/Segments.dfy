/** Dot-separated names as lists of segments. */
module Segments {

  predicate Plain(s: string) {
    '.' !in s
  }

  /** strings.Split(s, "."), which always yields at least one segment. */
  function Split(s: string): (r: seq<string>)
    ensures |r| > 0
  {
    if s == [] then [""]
    else
      var rest := Split(s[1..]);
      if s[0] == '.' then [""] + rest else [[s[0]] + rest[0]] + rest[1..]
  }

  function Join(r: seq<string>): string
    requires |r| > 0
  {
    if |r| == 1 then r[0] else r[0] + "." + Join(r[1..])
  }

  lemma {:induction false} JoinSplit(s: string)
    ensures Join(Split(s)) == s
  {
    if s != [] {
      JoinSplit(s[1..]);
      var rest := Split(s[1..]);
      if s[0] == '.' {
        assert Split(s)[1..] == rest;
        assert s == "." + s[1..];
      } else {
        assert Split(s)[1..] == rest[1..];
        assert s == [s[0]] + s[1..];
        if |rest| > 1 {
          assert [s[0]] + (rest[0] + "." + Join(rest[1..])) == [s[0]] + rest[0] + "." + Join(rest[1..]);
        }
      }
    }
  }

  lemma SplitInjective(a: string, b: string)
    requires Split(a) == Split(b)
    ensures a == b
  {
    JoinSplit(a);
    JoinSplit(b);
  }

  lemma {:induction false} SplitPlain(s: string)
    requires Plain(s)
    ensures Split(s) == [s]
  {
    if s != [] {
      SplitPlain(s[1..]);
      assert s == [s[0]] + s[1..];
    }
  }

  lemma SplitStep(s: string)
    requires s != []
    ensures var rest := Split(s[1..]);
            Split(s) == if s[0] == '.' then [""] + rest else [[s[0]] + rest[0]] + rest[1..]
  {
  }

  lemma Regroup(c: char, x: seq<string>, y: seq<string>)
    requires |x| > 0
    ensures [""] + (x + y) == [""] + x + y
    ensures [[c] + (x + y)[0]] + (x + y)[1..] == [[c] + x[0]] + x[1..] + y
  {
    assert (x + y)[1..] == x[1..] + y;
  }

  /** A dot separates the segments on its two sides. */
  lemma {:induction false} SplitDot(a: string, b: string)
    ensures Split(a + "." + b) == Split(a) + Split(b)
  {
    hide Split;
    var s := a + "." + b;
    SplitStep(s);
    if a == [] {
      SplitPlain(a);
      assert s[1..] == b && s[0] == '.';
    } else {
      SplitStep(a);
      assert s[1..] == a[1..] + "." + b && s[0] == a[0];
      SplitDot(a[1..], b);
      Regroup(s[0], Split(a[1..]), Split(b));
    }
  }

  lemma OccurrenceCut(prefix: string, rest: string, word: string, i: nat)
    requires Plain(word) && i < |prefix| && i + |word| + 2 <= |prefix + "." + rest|
    requires (prefix + "." + rest)[i..i + |word| + 2] == "." + word + "."
    ensures i + 1 + |word| <= |prefix| && prefix[i] == '.' && prefix[i + 1..i + 1 + |word|] == word
    ensures i + 1 + |word| < |prefix| ==> prefix[i + 1 + |word|] == '.'
  {
    var s := prefix + "." + rest;
    var marked := s[i..i + |word| + 2];
    var end := i + 1 + |word|;
    assert forall k | 0 <= k < |word| :: marked[1 + k] == word[k];
    assert forall k | i < k < end :: s[k] == marked[k - i] == word[k - i - 1];
    assert s[i] == marked[0] == '.' && s[end] == marked[|word| + 1] == '.';
    assert s[|prefix|] == '.';
    assert end <= |prefix|;
  }

  /** A dotted occurrence of a plain word that begins inside a prefix is a segment of that prefix. */
  lemma OccurrenceIsSegment(prefix: string, rest: string, word: string, i: nat)
    requires Plain(word) && i < |prefix| && i + |word| + 2 <= |prefix + "." + rest|
    requires (prefix + "." + rest)[i..i + |word| + 2] == "." + word + "."
    ensures word in Split(prefix)
  {
    hide Split;
    OccurrenceCut(prefix, rest, word, i);
    var a, end := prefix[..i], i + 1 + |word|;
    SplitPlain(word);
    if end == |prefix| {
      assert prefix == a + "." + word;
      SplitDot(a, word);
    } else {
      var c := prefix[end + 1..];
      assert prefix == a + "." + (word + "." + c);
      SplitDot(a, word + "." + c);
      SplitDot(word, c);
    }
  }
}
