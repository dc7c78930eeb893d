/** The retry-partition scheduler: an indexed binary heap of deadlines with its two side maps. The
    object that a partition's heap item is in the source is here the item's entry in the index map. */
module RetryScheduler {
  import opened InboxTables
  import opened KafkaRecords
  import opened Sorting

  datatype Entry = Entry(place: TopicPartition, deadline: Time)

  function Parent(k: nat): nat
    requires k > 0
  {
    (k - 1) / 2
  }

  function Swapped(h: seq<Entry>, i: nat, j: nat): (r: seq<Entry>)
    requires i < |h| && j < |h|
    ensures |r| == |h| && r[i] == h[j] && r[j] == h[i]
    ensures forall k | 0 <= k < |h| && k != i && k != j :: r[k] == h[k]
  {
    h[i := h[j]][j := h[i]]
  }

  // ---------------------------------------------------------------- heap order

  predicate Edge(h: seq<Entry>, k: nat)
    requires 0 < k < |h|
  {
    h[Parent(k)].deadline <= h[k].deadline
  }

  predicate Heap(h: seq<Entry>, n: nat)
    requires n <= |h|
  {
    forall k | 0 < k < n :: Edge(h, k)
  }

  /** Whatever sits below i is no earlier than what sits above i. */
  predicate Bridged(h: seq<Entry>, n: nat, i: nat)
    requires i < n <= |h|
  {
    i > 0 ==> forall k | 0 < k < n && Parent(k) == i :: h[Parent(i)].deadline <= h[k].deadline
  }

  /** In order except possibly between j and its parent. */
  predicate Rising(h: seq<Entry>, n: nat, j: nat)
    requires j < n <= |h|
  {
    (forall k | 0 < k < n && k != j :: Edge(h, k)) && Bridged(h, n, j)
  }

  /** In order except possibly between i and its children and, unless clean, between i and its parent. */
  predicate Sinking(h: seq<Entry>, n: nat, i: nat, clean: bool)
    requires i < n <= |h|
  {
    (forall k | 0 < k < n && Parent(k) != i && (clean || k != i) :: Edge(h, k)) && Bridged(h, n, i)
  }

  lemma RiseStep(h: seq<Entry>, n: nat, j: nat)
    requires 0 < j < n <= |h| && Rising(h, n, j) && h[j].deadline < h[Parent(j)].deadline
    ensures Rising(Swapped(h, Parent(j), j), n, Parent(j))
  {
    var p, r := Parent(j), Swapped(h, Parent(j), j);
    forall k | 0 < k < n && k != p ensures Edge(r, k) {
      assert k != j ==> Edge(h, k);
    }
    if p > 0 {
      assert Edge(h, p);
      forall k | 0 < k < n && Parent(k) == p ensures r[Parent(p)].deadline <= r[k].deadline {
        assert k != j ==> Edge(h, k);
      }
    }
  }

  lemma RiseEnd(h: seq<Entry>, n: nat, j: nat)
    requires j < n <= |h| && Rising(h, n, j) && (j == 0 || h[Parent(j)].deadline <= h[j].deadline)
    ensures Heap(h, n)
  {
    forall k | 0 < k < n ensures Edge(h, k) {
    }
  }

  /** The earlier of the children of i, if it has any below n. */
  predicate Child(h: seq<Entry>, n: nat, i: nat, j: nat)
    requires i < n <= |h|
  {
    0 < j < n && Parent(j) == i && forall k | 0 < k < n && Parent(k) == i :: h[j].deadline <= h[k].deadline
  }

  lemma SinkStep(h: seq<Entry>, n: nat, i: nat, clean: bool, j: nat)
    requires i < n <= |h| && Sinking(h, n, i, clean) && Child(h, n, i, j) && h[j].deadline < h[i].deadline
    ensures Sinking(Swapped(h, i, j), n, j, true)
  {
    var r := Swapped(h, i, j);
    forall k | 0 < k < n && Parent(k) != j ensures Edge(r, k) {
      if k != i && Parent(k) != i {
        assert Edge(h, k);
      }
    }
    forall k | 0 < k < n && Parent(k) == j ensures r[Parent(j)].deadline <= r[k].deadline {
      assert Edge(h, k);
    }
  }

  lemma SinkEnd(h: seq<Entry>, n: nat, i: nat, clean: bool)
    requires i < n <= |h| && Sinking(h, n, i, clean)
    requires forall k | 0 < k < n && Parent(k) == i :: h[i].deadline <= h[k].deadline
    ensures if clean then Heap(h, n) else Rising(h, n, i)
  {
    forall k | 0 < k < n && (clean || k != i) ensures Edge(h, k) {
    }
  }

  /** The root of a heap is its earliest deadline. */
  lemma {:induction false} RootIsEarliest(h: seq<Entry>, n: nat, k: nat)
    requires k < n <= |h| && Heap(h, n)
    ensures h[0].deadline <= h[k].deadline
  {
    if k > 0 {
      RootIsEarliest(h, n, Parent(k));
      assert Edge(h, k);
    }
  }

  // ---------------------------------------------------------------- stored indexes

  /** Every item knows its own place in the heap, and no partition is there twice. */
  predicate Indexed(h: seq<Entry>, index: map<TopicPartition, nat>) {
    && (forall k | 0 <= k < |h| :: h[k].place in index && index[h[k].place] == k)
    && (forall t | t in index :: index[t] < |h| && h[index[t]].place == t)
  }

  /** The plain partition-to-deadline map that the heap stands for. */
  function Deadlines(h: seq<Entry>, index: map<TopicPartition, nat>): map<TopicPartition, Time>
    requires Indexed(h, index)
  {
    map t | t in index :: h[index[t]].deadline
  }

  function Reindexed(h: seq<Entry>, index: map<TopicPartition, nat>, i: nat, j: nat): map<TopicPartition, nat>
    requires i < |h| && j < |h|
  {
    index[h[j].place := i][h[i].place := j]
  }

  lemma SwapKeepsIndex(h: seq<Entry>, index: map<TopicPartition, nat>, i: nat, j: nat)
    requires Indexed(h, index) && i < |h| && j < |h|
    ensures Indexed(Swapped(h, i, j), Reindexed(h, index, i, j))
    ensures Deadlines(Swapped(h, i, j), Reindexed(h, index, i, j)) == Deadlines(h, index)
  {
    var r, x := Swapped(h, i, j), Reindexed(h, index, i, j);
    forall k | 0 <= k < |r| ensures r[k].place in x && x[r[k].place] == k {
      assert k != i && k != j ==> h[k].place in index && index[h[k].place] == k;
    }
    forall t | t in x ensures x[t] < |r| && r[x[t]].place == t {
      assert t in index;
    }
    assert x.Keys == index.Keys;
    forall t | t in x ensures r[x[t]].deadline == h[index[t]].deadline {
      assert h[index[t]].place == t;
    }
  }

  lemma AppendKeepsIndex(h: seq<Entry>, index: map<TopicPartition, nat>, e: Entry)
    requires Indexed(h, index) && e.place !in index
    ensures Indexed(h + [e], index[e.place := |h|])
    ensures Deadlines(h + [e], index[e.place := |h|]) == Deadlines(h, index)[e.place := e.deadline]
  {
  }

  lemma ChangeKeepsIndex(h: seq<Entry>, index: map<TopicPartition, nat>, t: TopicPartition, deadline: Time)
    requires Indexed(h, index) && t in index
    ensures Indexed(h[index[t] := Entry(t, deadline)], index)
    ensures Deadlines(h[index[t] := Entry(t, deadline)], index) == Deadlines(h, index)[t := deadline]
  {
    var r := h[index[t] := Entry(t, deadline)];
    forall u | u in index ensures r[index[u]].place == u {
      assert h[index[u]].place == u;
    }
  }

  lemma RemoveLastKeepsIndex(h: seq<Entry>, index: map<TopicPartition, nat>)
    requires Indexed(h, index) && h != []
    ensures var n := |h| - 1;
            && Indexed(h[..n], index - {h[n].place})
            && Deadlines(h[..n], index - {h[n].place}) == Deadlines(h, index) - {h[n].place}
  {
    var n := |h| - 1;
    var x := index - {h[n].place};
    forall k | 0 <= k < n ensures h[k].place in x && x[h[k].place] == k {
      assert h[k].place in index && index[h[k].place] == k;
      assert index[h[n].place] == n;
    }
    forall t | t in x ensures x[t] < n && h[x[t]].place == t {
      assert h[index[t]].place == t;
    }
    assert forall t | t in x :: h[..n][x[t]].deadline == h[index[t]].deadline;
  }

  /** A new deadline leaves the heap in order except around the changed item. */
  lemma ChangeSinks(h: seq<Entry>, i: nat, e: Entry)
    requires Heap(h, |h|) && i < |h|
    ensures Sinking(h[i := e], |h|, i, false)
  {
    var r := h[i := e];
    forall k | 0 < k < |h| && Parent(k) != i && k != i ensures Edge(r, k) {
      assert Edge(h, k);
    }
    if i > 0 {
      assert Edge(h, i);
      forall k | 0 < k < |h| && Parent(k) == i ensures r[Parent(i)].deadline <= r[k].deadline {
        assert Edge(h, k);
      }
    }
  }

  lemma AppendRises(h: seq<Entry>, e: Entry)
    requires Heap(h, |h|)
    ensures Rising(h + [e], |h| + 1, |h|)
  {
    var r := h + [e];
    forall k | 0 < k < |h| ensures Edge(r, k) {
      assert Edge(h, k);
    }
  }

  /** Moving the last item to the root leaves the rest to sink from there. */
  lemma RootSwapSinks(h: seq<Entry>)
    requires Heap(h, |h|) && |h| > 1
    ensures Sinking(Swapped(h, 0, |h| - 1), |h| - 1, 0, true)
  {
    var n := |h| - 1;
    var r := Swapped(h, 0, n);
    forall k | 0 < k < n && Parent(k) != 0 ensures Edge(r, k) {
      assert Edge(h, k);
    }
  }

  // ---------------------------------------------------------------- the scheduler

  function DueBy(deadlines: map<TopicPartition, Time>, now: Time): set<TopicPartition> {
    set t | t in deadlines && deadlines[t] <= now
  }

  predicate StrictlyIncreasing(s: seq<nat>) {
    forall i, j | 0 <= i < j < |s| :: s[i] < s[j]
  }

  /** The released partitions, listed per topic once each and in increasing order; no topic without any. */
  ghost predicate Lists(resume: map<string, seq<nat>>, released: set<TopicPartition>) {
    && (forall t | t in resume :: resume[t] != [] && StrictlyIncreasing(resume[t]))
    && (forall t, p :: (t in resume && p in resume[t]) <==> TopicPartition(t, p) in released)
  }

  class Scheduler {
    var heap: seq<Entry>
    var index: map<TopicPartition, nat>
    var owned: set<TopicPartition>

    constructor()
      ensures Valid() && Pending() == map[] && owned == {}
    {
      heap, index, owned := [], map[], {};
    }

    ghost predicate Valid()
      reads this
    {
      Indexed(heap, index) && Heap(heap, |heap|) && owned <= index.Keys
    }

    /** The partitions that wait and until when. */
    ghost function Pending(): map<TopicPartition, Time>
      requires Indexed(heap, index)
      reads this
    {
      Deadlines(heap, index)
    }

    method Swap(i: nat, j: nat)
      requires Indexed(heap, index) && i < |heap| && j < |heap|
      modifies this`heap, this`index
      ensures heap == Swapped(old(heap), i, j)
      ensures Indexed(heap, index) && Pending() == old(Pending())
    {
      SwapKeepsIndex(heap, index, i, j);
      heap, index := Swapped(heap, i, j), Reindexed(heap, index, i, j);
    }

    method Up(at: nat)
      requires Indexed(heap, index) && at < |heap| && Rising(heap, |heap|, at)
      modifies this`heap, this`index
      ensures Indexed(heap, index) && Pending() == old(Pending())
      ensures |heap| == old(|heap|) && Heap(heap, |heap|)
    {
      hide Indexed, Rising, Heap, Deadlines;
      var j: nat := at;
      while j > 0 && heap[j].deadline < heap[Parent(j)].deadline
        invariant Indexed(heap, index) && Pending() == old(Pending())
        invariant |heap| == old(|heap|) && j < |heap| && Rising(heap, |heap|, j)
        decreases j
      {
        RiseStep(heap, |heap|, j);
        Swap(Parent(j), j);
        j := Parent(j);
      }
      RiseEnd(heap, |heap|, j);
    }

    /** Moves an item down among the first n; reports whether it moved. */
    method Down(at: nat, n: nat, ghost clean: bool) returns (moved: bool)
      requires Indexed(heap, index) && at < n <= |heap| && Sinking(heap, n, at, clean)
      modifies this`heap, this`index
      ensures Indexed(heap, index) && Pending() == old(Pending())
      ensures |heap| == old(|heap|) && heap[n..] == old(heap[n..])
      ensures if moved || clean then Heap(heap, n) else Rising(heap, n, at)
    {
      hide Indexed, Sinking, Heap, Rising, Child, Deadlines;
      var i := at;
      ghost var tidy := clean;
      while true
        invariant Indexed(heap, index) && Pending() == old(Pending())
        invariant |heap| == old(|heap|) && heap[n..] == old(heap[n..])
        invariant at <= i < n && Sinking(heap, n, i, tidy) && (tidy <==> clean || i > at)
        decreases n - i
      {
        var j := 2 * i + 1;
        if j >= n {
          break;
        }
        if j + 1 < n && heap[j + 1].deadline < heap[j].deadline {
          j := j + 1;
        }
        EarlierChild(heap, n, i, j);
        if heap[j].deadline >= heap[i].deadline {
          break;
        }
        SinkStep(heap, n, i, tidy, j);
        Swap(i, j);
        i, tidy := j, true;
      }
      ChildrenOf(heap, n, i);
      SinkEnd(heap, n, i, tidy);
      moved := i > at;
    }

    /** Adds a partition or moves its deadline; owns says whether this worker paused it. */
    method Schedule(t: TopicPartition, deadline: Time, owns: bool)
      requires Valid()
      modifies this
      ensures Valid() && Pending() == old(Pending())[t := deadline]
      ensures owned == old(owned) + if owns then {t} else {}
    {
      hide Indexed, Heap, Sinking, Rising, Deadlines;
      SameKeys(heap, index);
      if t in index {
        ChangeKeepsIndex(heap, index, t, deadline);
        IndexBound(heap, index, t);
        ChangeSinks(heap, index[t], Entry(t, deadline));
        var i := index[t];
        heap := heap[i := Entry(t, deadline)];
        var moved := Down(i, |heap|, false);
        if !moved {
          Up(i);
        }
      } else {
        AppendKeepsIndex(heap, index, Entry(t, deadline));
        AppendRises(heap, Entry(t, deadline));
        heap, index := heap + [Entry(t, deadline)], index[t := |heap|];
        Up(|heap| - 1);
      }
      SameKeys(heap, index);
      assert index.Keys == old(index.Keys) + {t};
      if owns {
        owned := owned + {t};
      }
    }

    function PollTimeout(now: Time, maximum: nat): nat
      reads this
    {
      if heap == [] then maximum
      else
        var wait := if heap[0].deadline > now then heap[0].deadline - now else 0;
        if wait < maximum then wait else maximum
    }

    /** Releases the partitions whose deadline has come, and returns those among them that this worker
        itself had paused. Afterwards a poll at the same instant has time to wait. */
    method ReleaseDue(now: Time) returns (resume: map<string, seq<nat>>)
      requires Valid()
      modifies this
      ensures Valid()
      ensures Pending() == old(Pending()) - DueBy(old(Pending()), now) && owned == old(owned) - DueBy(old(Pending()), now)
      ensures Lists(resume, old(owned) * DueBy(old(Pending()), now))
      ensures forall maximum: nat | maximum > 0 :: PollTimeout(now, maximum) > 0
    {
      hide Indexed, Heap, Deadlines, Gathers, Lists, DueBy;
      ghost var all, mine := Pending(), owned;
      ghost var gone: set<TopicPartition> := {};
      resume := map[];
      ReleaseStart(heap, index, owned, gone, now);
      while heap != [] && heap[0].deadline <= now
        invariant Indexed(heap, index) && Heap(heap, |heap|) && owned == mine - gone
        invariant Deadlines(heap, index) == all - gone && index.Keys == all.Keys - gone
        invariant gone <= DueBy(all, now) && Gathers(resume, mine * gone)
        decreases |index|
      {
        RootIsDue(heap, index, now);
        ghost var before := index;
        var e := Pop();
        ReleaseStep(all, mine, gone, now, e.place, before, index);
        if e.place in owned {
          GatherStep(resume, mine * gone, e.place);
          var listed := if e.place.topic in resume then resume[e.place.topic] else [];
          resume := resume[e.place.topic := listed + [e.place.partition]];
          owned := owned - {e.place};
        }
        gone := gone + {e.place};
      }
      NothingDue(heap, index, now);
      ReleaseEnd(all, mine, gone, now, index);
      resume := SortLists(resume, mine * gone);
    }

    /** Removes the item with the earliest deadline. */
    method Pop() returns (e: Entry)
      requires Indexed(heap, index) && Heap(heap, |heap|) && heap != []
      modifies this`heap, this`index
      ensures Indexed(heap, index) && Heap(heap, |heap|)
      ensures e == old(heap[0]) && Pending() == old(Pending()) - {e.place} && index.Keys == old(index.Keys) - {e.place}
    {
      hide Indexed, Heap, Sinking, Rising, Deadlines;
      var n := |heap| - 1;
      SameKeys(heap, index);
      if n > 0 {
        RootSwapSinks(heap);
        Swap(0, n);
        var last := heap[n];
        var moved := Down(0, n, true);
        assert heap[n] == heap[n..][0] == last;
      }
      e := heap[n];
      RemoveLastKeepsIndex(heap, index);
      HeapPrefix(heap, n);
      heap, index := heap[..n], index - {e.place};
      SameKeys(heap, index);
    }
  }

  /** What is left when the earliest deadline is still ahead is exactly what is not due. */
  lemma NothingDue(h: seq<Entry>, index: map<TopicPartition, nat>, now: Time)
    requires Indexed(h, index) && Heap(h, |h|) && (h == [] || h[0].deadline > now)
    ensures DueBy(Deadlines(h, index), now) == {}
  {
    forall t | t in index ensures h[index[t]].deadline > now {
      RootIsEarliest(h, |h|, index[t]);
    }
  }

  /** The root of a heap whose deadline has passed is due. */
  lemma RootIsDue(h: seq<Entry>, index: map<TopicPartition, nat>, now: Time)
    requires Indexed(h, index) && h != [] && h[0].deadline <= now
    ensures h[0].place in Deadlines(h, index) && h[0].place in DueBy(Deadlines(h, index), now)
  {
    assert h[0].place in index && index[h[0].place] == 0;
  }

  /** Collected so far, not yet sorted. */
  ghost predicate Gathers(resume: map<string, seq<nat>>, released: set<TopicPartition>) {
    && (forall t | t in resume :: resume[t] != [] && forall i, j | 0 <= i < j < |resume[t]| :: resume[t][i] != resume[t][j])
    && (forall t, p :: (t in resume && p in resume[t]) <==> TopicPartition(t, p) in released)
  }

  lemma ReleaseStart(h: seq<Entry>, index: map<TopicPartition, nat>, owned: set<TopicPartition>,
                     gone: set<TopicPartition>, now: Time)
    requires Indexed(h, index) && gone == {}
    ensures Deadlines(h, index) - gone == Deadlines(h, index) && owned - gone == owned
    ensures index.Keys == Deadlines(h, index).Keys && index.Keys - gone == index.Keys && Gathers(map[], owned * gone)
    ensures gone <= DueBy(Deadlines(h, index), now)
  {
    assert owned * gone == {};
  }

  /** Set bookkeeping of one released partition. */
  lemma ReleaseStep(all: map<TopicPartition, Time>, mine: set<TopicPartition>, gone: set<TopicPartition>, now: Time,
                    t: TopicPartition, before: map<TopicPartition, nat>, after: map<TopicPartition, nat>)
    requires t in DueBy(all - gone, now) && before.Keys == all.Keys - gone && after.Keys == before.Keys - {t}
    ensures all - gone - {t} == all - (gone + {t}) && after.Keys == all.Keys - (gone + {t}) && |after| < |before|
    ensures t in DueBy(all, now) && t !in mine * gone
    ensures t in mine - gone ==> mine * gone + {t} == mine * (gone + {t}) && mine - gone - {t} == mine - (gone + {t})
    ensures t !in mine - gone ==> mine * gone == mine * (gone + {t}) && mine - gone == mine - (gone + {t})
  {
    FewerKeys(before, after, t);
  }

  lemma ReleaseEnd(all: map<TopicPartition, Time>, mine: set<TopicPartition>, gone: set<TopicPartition>, now: Time,
                   index: map<TopicPartition, nat>)
    requires gone <= DueBy(all, now) && DueBy(all - gone, now) == {} && mine <= all.Keys
    requires index.Keys == all.Keys - gone
    ensures gone == DueBy(all, now) && mine - gone <= index.Keys
  {
    forall t | t in DueBy(all, now) ensures t in gone {
      assert t !in DueBy(all - gone, now);
    }
  }

  lemma FewerKeys(before: map<TopicPartition, nat>, after: map<TopicPartition, nat>, t: TopicPartition)
    requires t in before && after.Keys == before.Keys - {t}
    ensures |after| < |before|
  {
    assert |before.Keys| == |before| && |after.Keys| == |after|;
    assert before.Keys == after.Keys + {t};
  }

  lemma GatherStep(resume: map<string, seq<nat>>, released: set<TopicPartition>, t: TopicPartition)
    requires Gathers(resume, released) && t !in released
    ensures Gathers(resume[t.topic := (if t.topic in resume then resume[t.topic] else []) + [t.partition]], released + {t})
  {
    var before := if t.topic in resume then resume[t.topic] else [];
    var after := resume[t.topic := before + [t.partition]];
    assert t == TopicPartition(t.topic, t.partition);
    assert t.topic in resume ==> t.partition !in resume[t.topic];
    forall u, p ensures (u in after && p in after[u]) <==> TopicPartition(u, p) in released + {t} {
      if u == t.topic {
        assert p in before <==> TopicPartition(u, p) in released;
      }
    }
  }

  /** Sorts the partitions of every topic. */
  method SortLists(resume: map<string, seq<nat>>, ghost released: set<TopicPartition>) returns (r: map<string, seq<nat>>)
    requires Gathers(resume, released)
    ensures Lists(r, released)
  {
    r := resume;
    var left := resume.Keys;
    while left != {}
      invariant Gathers(r, released) && r.Keys == resume.Keys && left <= r.Keys
      invariant forall t | t in r && t !in left :: StrictlyIncreasing(r[t])
      decreases left
    {
      var t :| t in left;
      var sorted := SortNumbers(r[t]);
      SortedGathers(r, released, t, sorted);
      r := r[t := sorted];
      left := left - {t};
    }
  }

  method SortNumbers(s: seq<nat>) returns (r: seq<nat>)
    ensures multiset(r) == multiset(s) && forall i, j | 0 <= i < j < |r| :: r[i] <= r[j]
  {
    r := Sort(s, (a: nat, b: nat) => a <= b);
  }

  lemma SortedGathers(resume: map<string, seq<nat>>, released: set<TopicPartition>, t: string, sorted: seq<nat>)
    requires Gathers(resume, released) && t in resume && multiset(sorted) == multiset(resume[t])
    requires forall i, j | 0 <= i < j < |sorted| :: sorted[i] <= sorted[j]
    ensures Gathers(resume[t := sorted], released) && StrictlyIncreasing(sorted)
  {
    var s := resume[t];
    assert forall p :: p in sorted <==> p in multiset(sorted);
    assert forall p :: p in s <==> p in multiset(s);
    assert |multiset(sorted)| == |sorted| && |multiset(s)| == |s|;
    DistinctByCount(s, sorted);
  }

  lemma DistinctByCount(s: seq<nat>, r: seq<nat>)
    requires multiset(r) == multiset(s) && forall i, j | 0 <= i < j < |s| :: s[i] != s[j]
    ensures forall i, j | 0 <= i < j < |r| :: r[i] != r[j]
  {
    forall i, j | 0 <= i < j < |r| ensures r[i] != r[j] {
      OnceEach(s, r[i]);
      TwiceCounts(r, i, j);
    }
  }

  lemma {:induction false} OnceEach(s: seq<nat>, x: nat)
    requires forall i, j | 0 <= i < j < |s| :: s[i] != s[j]
    ensures multiset(s)[x] <= 1
  {
    if s != [] {
      var n := |s| - 1;
      assert s == s[..n] + [s[n]];
      OnceEach(s[..n], x);
      if x == s[n] {
        assert x !in s[..n];
        assert x !in multiset(s[..n]);
      }
    }
  }

  lemma IndexBound(h: seq<Entry>, index: map<TopicPartition, nat>, t: TopicPartition)
    requires Indexed(h, index) && t in index
    ensures index[t] < |h|
  {
  }

  lemma SameKeys(h: seq<Entry>, index: map<TopicPartition, nat>)
    requires Indexed(h, index)
    ensures Deadlines(h, index).Keys == index.Keys
  {
  }

  lemma HeapPrefix(h: seq<Entry>, n: nat)
    requires n <= |h| && Heap(h, n)
    ensures Heap(h[..n], n)
  {
    forall k | 0 < k < n ensures Edge(h[..n], k) {
      assert Edge(h, k);
    }
  }

  lemma EarlierChild(h: seq<Entry>, n: nat, i: nat, j: nat)
    requires i < n <= |h| && 2 * i + 1 < n
    requires j == if 2 * i + 2 < n && h[2 * i + 2].deadline < h[2 * i + 1].deadline then 2 * i + 2 else 2 * i + 1
    ensures Child(h, n, i, j)
    ensures j > i
  {
  }

  lemma ChildrenOf(h: seq<Entry>, n: nat, i: nat)
    requires i < n <= |h|
    requires 2 * i + 1 < n ==>
               exists j | 2 * i + 1 <= j < n && j <= 2 * i + 2 :: Child(h, n, i, j) && h[i].deadline <= h[j].deadline
    ensures forall k | 0 < k < n && Parent(k) == i :: h[i].deadline <= h[k].deadline
  {
  }
}
