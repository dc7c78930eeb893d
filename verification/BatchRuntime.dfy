/** The transport-neutral handler contract: error classification and the exact
    cover test on partial batch results. */
module BatchRuntime {
  import opened InboxTables

  /** A handler error by the markers it carries; one error may carry several. */
  datatype Failure = Failure(permanent: bool, deferDelay: Option<nat>, retryDelay: Option<nat>,
                             invalidBatch: bool, tag: nat)

  datatype Outcome = Success | Failed(failure: Failure)

  datatype Kind = KindSuccess | KindPermanent | KindDefer | KindRetryAfter | KindOrdinary

  /** Marker precedence: Permanent, DeferAfter, RetryAfter, then an ordinary consuming failure. */
  function Classify(outcome: Outcome): (r: (Kind, nat))
    ensures r.0.KindSuccess? <==> outcome.Success?
    ensures r.0.KindPermanent? <==> outcome.Failed? && outcome.failure.permanent
    ensures r.0.KindDefer? <==> outcome.Failed? && !outcome.failure.permanent && outcome.failure.deferDelay.Some?
    ensures r.0.KindRetryAfter? <==> outcome.Failed? && !outcome.failure.permanent && outcome.failure.deferDelay.None?
                                     && outcome.failure.retryDelay.Some?
    ensures match r.0
            case KindDefer => outcome.failure.deferDelay == Some(r.1)
            case KindRetryAfter => outcome.failure.retryDelay == Some(r.1)
            case _ => r.1 == 0
  {
    if outcome.Success? then (KindSuccess, 0)
    else if outcome.failure.permanent then (KindPermanent, 0)
    else if outcome.failure.deferDelay.Some? then (KindDefer, outcome.failure.deferDelay.value)
    else if outcome.failure.retryDelay.Some? then (KindRetryAfter, outcome.failure.retryDelay.value)
    else (KindOrdinary, 0)
  }

  predicate IsFailClosed(f: Failure) {
    f.invalidBatch || f.permanent
  }

  // ---------------------------------------------------------------- results

  datatype ItemResult = ItemResult(key: ItemKey, outcome: Outcome)

  predicate Distinct<T(==)>(xs: seq<T>) {
    forall j, k | 0 <= j < k < |xs| :: xs[j] != xs[k]
  }

  function KeysOf(items: seq<ItemResult>): (r: seq<ItemKey>)
    ensures |r| == |items| && forall k | 0 <= k < |r| :: r[k] == items[k].key
  {
    seq(|items|, k requires 0 <= k < |items| => items[k].key)
  }

  predicate CompleteKey(k: ItemKey) {
    k.source != "" && k.message != ""
  }

  /** The results name every expected message exactly once and nothing else. */
  ghost predicate IsCover(expected: seq<ItemKey>, items: seq<ItemResult>) {
    && (forall k | 0 <= k < |expected| :: CompleteKey(expected[k]))
    && Distinct(expected) && Distinct(KeysOf(items))
    && (forall key :: key in expected <==> key in KeysOf(items))
  }

  function ResultsUpTo(items: seq<ItemResult>, n: nat): map<ItemKey, Outcome>
    requires n <= |items|
  {
    if n == 0 then map[] else ResultsUpTo(items, n - 1)[items[n - 1].key := items[n - 1].outcome]
  }

  function ResultsOf(items: seq<ItemResult>): map<ItemKey, Outcome> {
    ResultsUpTo(items, |items|)
  }

  lemma {:induction false} ResultKeys(items: seq<ItemResult>, n: nat)
    requires n <= |items|
    ensures forall key :: key in ResultsUpTo(items, n) <==> key in KeysOf(items)[..n]
  {
    if n > 0 {
      ResultKeys(items, n - 1);
      assert KeysOf(items)[..n] == KeysOf(items)[..n - 1] + [items[n - 1].key];
    }
  }

  lemma {:induction false} ResultAt(items: seq<ItemResult>, n: nat, k: nat)
    requires k < n <= |items| && Distinct(KeysOf(items))
    ensures items[k].key in ResultsUpTo(items, n) && ResultsUpTo(items, n)[items[k].key] == items[k].outcome
  {
    if k < n - 1 {
      ResultAt(items, n - 1, k);
      assert KeysOf(items)[k] != KeysOf(items)[n - 1];
    }
  }

  lemma {:induction false} DistinctCount<T>(xs: seq<T>)
    requires Distinct(xs)
    ensures |set x | x in xs| == |xs|
  {
    if xs != [] {
      var last := |xs| - 1;
      var rest := xs[..last];
      DistinctCount(rest);
      assert xs == rest + [xs[last]];
      assert (set x | x in xs) == (set x | x in rest) + {xs[last]};
    }
  }

  /** A set of the size of a duplicate-free list that contains only its elements contains all of them. */
  lemma CoverBySize<T>(xs: seq<T>, ys: seq<T>)
    requires Distinct(xs) && Distinct(ys) && |xs| == |ys|
    requires forall k | 0 <= k < |ys| :: ys[k] in xs
    ensures forall x :: x in xs <==> x in ys
  {
    DistinctCount(xs);
    DistinctCount(ys);
    var a, b := set x | x in xs, set y | y in ys;
    assert b <= a;
    assert |a - b| == |a| - |b|;
    assert a - b == {};
    forall x ensures x in xs <==> x in ys {
      assert x in a <==> x in xs;
      assert x in b <==> x in ys;
    }
  }

  lemma CoverSizes(expected: seq<ItemKey>, items: seq<ItemResult>)
    requires IsCover(expected, items)
    ensures |expected| == |items|
  {
    DistinctCount(expected);
    DistinctCount(KeysOf(items));
    assert (set x | x in expected) == (set x | x in KeysOf(items));
  }

  /** Counting the results and checking both key lists for duplicates and strangers decides coverage. */
  lemma CoverTest(expected: seq<ItemKey>, items: seq<ItemResult>)
    ensures IsCover(expected, items) <==>
            && |items| == |expected|
            && Distinct(expected) && (forall k | 0 <= k < |expected| :: CompleteKey(expected[k]))
            && Distinct(KeysOf(items)) && forall k | 0 <= k < |items| :: KeysOf(items)[k] in expected
  {
    var keys := KeysOf(items);
    if IsCover(expected, items) {
      CoverSizes(expected, items);
      forall k | 0 <= k < |items| ensures keys[k] in expected {
        assert keys[k] in keys;
      }
    } else if |items| == |expected| && Distinct(expected) && Distinct(keys)
              && (forall k | 0 <= k < |expected| :: CompleteKey(expected[k]))
              && (forall k | 0 <= k < |items| :: keys[k] in expected) {
      CoverBySize(expected, keys);
    }
  }

  /** Accepts exactly the one-to-one covers, and returns the outcomes in expected order. */
  method ValidateResult(expected: seq<ItemKey>, items: seq<ItemResult>) returns (ok: bool, ordered: seq<Outcome>)
    ensures ok <==> IsCover(expected, items)
    ensures ok ==> |ordered| == |expected|
    ensures ok ==> forall k | 0 <= k < |expected| ::
                     expected[k] in ResultsOf(items) && ordered[k] == ResultsOf(items)[expected[k]]
  {
    CoverTest(expected, items);
    if |items| != |expected| {
      return false, [];
    }
    var good := CheckExpected(expected);
    if !good {
      return false, [];
    }
    var byKey;
    good, byKey := CollectResults(expected, items);
    if !good {
      return false, [];
    }
    ResultKeys(items, |items|);
    ok := true;
    ordered := [];
    for i := 0 to |expected|
      invariant |ordered| == i
      invariant forall k | 0 <= k < i :: expected[k] in byKey && ordered[k] == byKey[expected[k]]
    {
      assert expected[i] in KeysOf(items);
      ordered := ordered + [byKey[expected[i]]];
    }
  }

  method CheckExpected(expected: seq<ItemKey>) returns (good: bool)
    ensures good <==> Distinct(expected) && forall k | 0 <= k < |expected| :: CompleteKey(expected[k])
  {
    var seen: set<ItemKey> := {};
    for i := 0 to |expected|
      invariant forall key :: key in seen <==> key in expected[..i]
      invariant Distinct(expected[..i])
      invariant forall k | 0 <= k < i :: CompleteKey(expected[k])
    {
      if expected[i].source == "" || expected[i].message == "" {
        return false;
      }
      if expected[i] in seen {
        var j :| 0 <= j < i && expected[j] == expected[i];
        return false;
      }
      assert expected[..i + 1] == expected[..i] + [expected[i]];
      seen := seen + {expected[i]};
    }
    assert expected[..|expected|] == expected;
    good := true;
  }

  method CollectResults(expected: seq<ItemKey>, items: seq<ItemResult>)
    returns (good: bool, byKey: map<ItemKey, Outcome>)
    ensures good <==> Distinct(KeysOf(items)) && forall k | 0 <= k < |items| :: KeysOf(items)[k] in expected
    ensures good ==> byKey == ResultsOf(items)
  {
    byKey := map[];
    var expectedSet := set key | key in expected;
    for i := 0 to |items|
      invariant byKey == ResultsUpTo(items, i)
      invariant forall j, k | 0 <= j < k < i :: items[j].key != items[k].key
      invariant forall k | 0 <= k < i :: items[k].key in expected
    {
      if items[i].key !in expectedSet {
        assert KeysOf(items)[i] == items[i].key;
        return false, map[];
      }
      ResultKeys(items, i);
      if items[i].key in byKey {
        DuplicateSeen(items, i);
        return false, map[];
      }
      forall j | 0 <= j < i ensures items[j].key != items[i].key {
        assert KeysOf(items)[..i][j] == items[j].key;
      }
      byKey := byKey[items[i].key := items[i].outcome];
    }
    good := true;
  }

  lemma DuplicateSeen(items: seq<ItemResult>, i: nat)
    requires i < |items| && items[i].key in KeysOf(items)[..i]
    ensures !Distinct(KeysOf(items))
  {
    var j :| 0 <= j < i && KeysOf(items)[..i][j] == items[i].key;
    assert KeysOf(items)[j] == KeysOf(items)[i];
  }
}
