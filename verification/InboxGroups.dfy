/** Grouping a batch by logical key and ordering the groups, as both backends do
    before they open their transaction. */
module InboxGroups {
  import opened InboxTables
  import opened BatchRuntime
  import opened InboxAttempt
  import opened InboxBatch
  import opened Sorting

  /** The deliveries of one logical key while the batch is prepared. */
  datatype Group = Group(id: Identity, entries: seq<nat>, matching: seq<nat>, state: AttemptState, first: nat)

  const NO_STATE := AttemptState(0, false, None)

  predicate SameConsumer(items: seq<BatchItem>) {
    forall i | 0 <= i < |items| :: items[i].key.id.consumer == items[0].key.id.consumer
  }

  /** All deliveries of one identity name the same attempt generation. */
  predicate OneGeneration(items: seq<BatchItem>) {
    forall i, j | 0 <= i < j < |items| && items[i].key.id == items[j].key.id :: items[i].key == items[j].key
  }

  ghost predicate IsGroup(b: Batch, g: Group) {
    g.entries == b.Positions(g.id) && |g.entries| > 0 && g == Group(g.id, g.entries, [], NO_STATE, g.entries[0])
  }

  lemma TakeStep<T>(xs: seq<T>, k: nat)
    requires k < |xs|
    ensures forall x :: x in xs[..k + 1] <==> x in xs[..k] || x == xs[k]
  {
    assert xs[..k + 1] == xs[..k] + [xs[k]];
  }

  function IdsOf(gs: seq<Group>): (r: seq<Identity>)
    ensures |r| == |gs| && forall k | 0 <= k < |gs| :: r[k] == gs[k].id
  {
    seq(|gs|, k requires 0 <= k < |gs| => gs[k].id)
  }

  /** Every delivery belongs to exactly one group. */
  ghost predicate Grouped(b: Batch, gs: seq<Group>) {
    && (forall k | 0 <= k < |gs| :: IsGroup(b, gs[k]))
    && Distinct(IdsOf(gs))
    && (forall i | 0 <= i < |b.items| :: b.items[i].key.id in IdsOf(gs))
  }

  /** A group that has collected the given positions of its key and nothing more yet. */
  predicate HoldsEntries(g: Group, entries: seq<nat>) {
    |entries| > 0 && g == Group(g.id, entries, [], NO_STATE, entries[0])
  }

  /** The key map names each group's position. */
  ghost predicate Indexed(gs: seq<Group>, byKey: map<Identity, nat>) {
    && (forall k | 0 <= k < |gs| :: gs[k].id in byKey && byKey[gs[k].id] == k)
    && (forall id :: id in byKey ==> byKey[id] < |gs| && gs[byKey[id]].id == id)
  }

  lemma IndexedAppend(gs: seq<Group>, byKey: map<Identity, nat>, g: Group)
    requires Indexed(gs, byKey) && g.id !in byKey
    ensures Indexed(gs + [g], byKey[g.id := |gs|])
  {
  }

  lemma IndexedUpdate(gs: seq<Group>, byKey: map<Identity, nat>, k: nat, g: Group)
    requires Indexed(gs, byKey) && k < |gs| && g.id == gs[k].id
    ensures Indexed(gs[k := g], byKey)
  {
  }

  /** Grouping in the middle of the scan; pos gives each key's positions so far. */
  ghost predicate GroupedUpTo(items: seq<BatchItem>, n: nat, pos: Identity -> seq<nat>,
                              gs: seq<Group>, byKey: map<Identity, nat>)
    requires n <= |items|
  {
    && Indexed(gs, byKey)
    && (forall k | 0 <= k < |gs| :: HoldsEntries(gs[k], pos(gs[k].id)))
    && (forall i | 0 <= i < n :: items[i].key.id in byKey)
  }

  ghost predicate Advances(items: seq<BatchItem>, n: nat, pos: Identity -> seq<nat>, next: Identity -> seq<nat>)
    requires n < |items|
  {
    forall id :: next(id) == pos(id) + (if items[n].key.id == id then [n] else [])
  }

  lemma PositionsStep(b: Batch, id: Identity, n: nat)
    requires n < |b.items|
    ensures b.PositionsUpTo(id, n + 1) == b.PositionsUpTo(id, n) + (if b.items[n].key.id == id then [n] else [])
  {
  }

  lemma {:induction false} PositionsNone(b: Batch, id: Identity, n: nat)
    requires n <= |b.items| && forall i | 0 <= i < n :: b.items[i].key.id != id
    ensures b.PositionsUpTo(id, n) == []
  {
    if n > 0 {
      PositionsNone(b, id, n - 1);
      PositionsStep(b, id, n - 1);
    }
  }

  lemma OpenGroup(items: seq<BatchItem>, n: nat, pos: Identity -> seq<nat>, next: Identity -> seq<nat>,
                  gs: seq<Group>, byKey: map<Identity, nat>)
    requires n < |items| && GroupedUpTo(items, n, pos, gs, byKey) && Advances(items, n, pos, next)
    requires items[n].key.id !in byKey && pos(items[n].key.id) == []
    ensures var id := items[n].key.id;
            GroupedUpTo(items, n + 1, next, gs + [Group(id, [n], [], NO_STATE, n)], byKey[id := |gs|])
  {
    var g := Group(items[n].key.id, [n], [], NO_STATE, n);
    IndexedAppend(gs, byKey, g);
    forall k | 0 <= k < |gs| ensures next(gs[k].id) == pos(gs[k].id) {
      assert gs[k].id in byKey;
    }
  }

  lemma ExtendGroup(items: seq<BatchItem>, n: nat, pos: Identity -> seq<nat>, next: Identity -> seq<nat>,
                    gs: seq<Group>, byKey: map<Identity, nat>)
    requires n < |items| && GroupedUpTo(items, n, pos, gs, byKey) && Advances(items, n, pos, next)
    requires items[n].key.id in byKey
    ensures var at := byKey[items[n].key.id];
            GroupedUpTo(items, n + 1, next, gs[at := gs[at].(entries := gs[at].entries + [n])], byKey)
  {
    var at := byKey[items[n].key.id];
    var g := gs[at].(entries := gs[at].entries + [n]);
    IndexedUpdate(gs, byKey, at, g);
    var gs' := gs[at := g];
    forall k | 0 <= k < |gs'| ensures HoldsEntries(gs'[k], next(gs'[k].id)) {
      assert HoldsEntries(gs[k], pos(gs[k].id));
      assert byKey[gs[k].id] == k;
    }
  }

  /** Files one delivery; rejects a second generation of a key that has a group. */
  method AddDelivery(items: seq<BatchItem>, n: nat, ghost pos: Identity -> seq<nat>, ghost next: Identity -> seq<nat>,
                     gs: seq<Group>, byKey: map<Identity, nat>)
    returns (ok: bool, gs': seq<Group>, byKey': map<Identity, nat>)
    requires n < |items| && GroupedUpTo(items, n, pos, gs, byKey) && Advances(items, n, pos, next)
    requires forall id, k | 0 <= k < |pos(id)| :: pos(id)[k] < n
    requires items[n].key.id !in byKey ==> pos(items[n].key.id) == []
    ensures ok ==> GroupedUpTo(items, n + 1, next, gs', byKey')
    ensures ok <==> items[n].key.id in byKey ==>
                      items[pos(items[n].key.id)[0]].key.generation == items[n].key.generation
  {
    var id := items[n].key.id;
    ok, gs', byKey' := true, gs, byKey;
    if id !in byKey {
      byKey' := byKey[id := |gs|];
      gs' := gs + [Group(id, [n], [], NO_STATE, n)];
      OpenGroup(items, n, pos, next, gs, byKey);
    } else {
      var at := byKey[id];
      var g := gs[at];
      assert HoldsEntries(g, pos(id));
      if items[g.entries[0]].key.generation != items[n].key.generation {
        return false, [], map[];
      }
      gs' := gs[at := g.(entries := g.entries + [n])];
      ExtendGroup(items, n, pos, next, gs, byKey);
    }
  }

  ghost predicate OneGenerationUpTo(items: seq<BatchItem>, n: nat)
    requires n <= |items|
  {
    forall i, j | 0 <= i < j < n && items[i].key.id == items[j].key.id :: items[i].key == items[j].key
  }

  lemma GenerationClash(items: seq<BatchItem>, n: nat, first: nat)
    requires first < n < |items| && OneGenerationUpTo(items, n) && items[first].key.id == items[n].key.id
    ensures items[first].key.generation == items[n].key.generation <==> OneGenerationUpTo(items, n + 1)
  {
  }

  ghost predicate PositionsAre(b: Batch, n: nat, pos: Identity -> seq<nat>)
    requires n <= |b.items|
  {
    forall id :: pos(id) == b.PositionsUpTo(id, n)
  }

  lemma GroupingStep(b: Batch, n: nat, pos: Identity -> seq<nat>, next: Identity -> seq<nat>,
                     gs: seq<Group>, byKey: map<Identity, nat>)
    requires n < |b.items| && PositionsAre(b, n, pos) && PositionsAre(b, n + 1, next)
    requires GroupedUpTo(b.items, n, pos, gs, byKey) && OneGenerationUpTo(b.items, n)
    ensures Advances(b.items, n, pos, next)
    ensures forall id, k | 0 <= k < |pos(id)| :: pos(id)[k] < n
    ensures var id := b.items[n].key.id;
            && (id !in byKey ==> pos(id) == [])
            && (id in byKey ==> pos(id) != [])
            && ((id in byKey ==> b.items[pos(id)[0]].key.generation == b.items[n].key.generation)
                <==> OneGenerationUpTo(b.items, n + 1))
  {
    forall other ensures next(other) == pos(other) + (if b.items[n].key.id == other then [n] else []) {
      PositionsStep(b, other, n);
    }
    var id := b.items[n].key.id;
    if id !in byKey {
      PositionsNone(b, id, n);
    } else {
      assert HoldsEntries(gs[byKey[id]], pos(id));
      b.PositionsSpec(id, n);
      assert pos(id)[0] in pos(id);
      GenerationClash(b.items, n, pos(id)[0]);
    }
  }

  lemma GroupingStart(items: seq<BatchItem>, pos: Identity -> seq<nat>)
    ensures GroupedUpTo(items, 0, pos, [], map[]) && OneGenerationUpTo(items, 0)
  {
  }

  ghost function PositionsMap(b: Batch, n: nat): (r: Identity -> seq<nat>)
    requires n <= |b.items|
    ensures PositionsAre(b, n, r)
  {
    (id: Identity) => b.PositionsUpTo(id, n)
  }

  lemma OneGenerationPrefix(items: seq<BatchItem>, n: nat)
    requires n <= |items|
    ensures OneGeneration(items) ==> OneGenerationUpTo(items, n)
    ensures n == |items| ==> (OneGeneration(items) <==> OneGenerationUpTo(items, n))
  {
  }

  /** Groups deliveries by logical key; fails exactly when one key appears under two generations. */
  method PrepareGroups(ghost b: Batch, items: seq<BatchItem>) returns (ok: bool, groups: seq<Group>)
    requires b.items == items
    ensures ok ==> Grouped(b, groups)
    ensures ok <==> OneGeneration(items)
  {
    hide *;
    var byKey: map<Identity, nat> := map[];
    groups := [];
    ghost var pos := PositionsMap(b, 0);
    GroupingStart(items, pos);
    for n := 0 to |items|
      invariant GroupedUpTo(items, n, pos, groups, byKey)
      invariant PositionsAre(b, n, pos)
      invariant OneGenerationUpTo(items, n)
    {
      ghost var next := PositionsMap(b, n + 1);
      GroupingStep(b, n, pos, next, groups, byKey);
      ok, groups, byKey := AddDelivery(items, n, pos, next, groups, byKey);
      OneGenerationPrefix(items, n + 1);
      if !ok {
        return false, [];
      }
      pos := next;
    }
    ok := true;
    OneGenerationPrefix(items, |items|);
    GroupingDone(b, pos, groups, byKey);
  }

  lemma GroupingDone(b: Batch, pos: Identity -> seq<nat>, groups: seq<Group>, byKey: map<Identity, nat>)
    requires GroupedUpTo(b.items, |b.items|, pos, groups, byKey)
    requires PositionsAre(b, |b.items|, pos)
    ensures Grouped(b, groups)
  {
    forall k | 0 <= k < |groups| ensures IsGroup(b, groups[k]) {
      assert HoldsEntries(groups[k], pos(groups[k].id));
    }
    forall i | 0 <= i < |b.items| ensures b.items[i].key.id in IdsOf(groups) {
      assert IdsOf(groups)[byKey[b.items[i].key.id]] == b.items[i].key.id;
    }
  }

  // ---------------------------------------------------------------- lock order

  predicate LockBefore(x: Group, y: Group) {
    if x.id.item.source != y.id.item.source then LexLe(x.id.item.source, y.id.item.source)
    else LexLe(x.id.item.message, y.id.item.message)
  }

  predicate FirstBefore(x: Group, y: Group) {
    x.first <= y.first
  }

  lemma LockOrderTotal()
    ensures TotalPreorder(LockBefore)
  {
    forall x, y ensures LockBefore(x, y) || LockBefore(y, x) {
      LexTotal(x.id.item.source, y.id.item.source);
      LexTotal(x.id.item.message, y.id.item.message);
    }
    forall x, y, z | LockBefore(x, y) && LockBefore(y, z) ensures LockBefore(x, z) {
      LockTransitive(x, y, z);
    }
  }

  lemma LockTransitive(x: Group, y: Group, z: Group)
    requires LockBefore(x, y) && LockBefore(y, z)
    ensures LockBefore(x, z)
  {
    var a, b, c := x.id.item, y.id.item, z.id.item;
    if a.source == b.source == c.source {
      LexTransitive(a.message, b.message, c.message);
    } else if a.source != b.source && b.source != c.source {
      LexTransitive(a.source, b.source, c.source);
      if a.source == c.source {
        LexAntisymmetric(a.source, b.source);
      }
    }
  }

  lemma {:induction false} CountDistinct<T>(xs: seq<T>, x: T)
    requires Distinct(xs)
    ensures multiset(xs)[x] == if x in xs then 1 else 0
  {
    if xs != [] {
      CountDistinct(xs[1..], x);
      assert xs == [xs[0]] + xs[1..];
    }
  }

  /** Reordering a list keeps it free of duplicates. */
  lemma PermutationDistinct<T>(xs: seq<T>, ys: seq<T>)
    requires Distinct(xs) && multiset(xs) == multiset(ys)
    ensures Distinct(ys)
    ensures forall x :: x in xs <==> x in ys
  {
    forall x ensures x in xs <==> x in ys {
      assert x in multiset(xs) <==> x in multiset(ys);
    }
    forall j, k | 0 <= j < k < |ys| ensures ys[j] != ys[k] {
      if ys[j] == ys[k] {
        TwiceCounts(ys, j, k);
        CountDistinct(xs, ys[j]);
      }
    }
  }

  lemma DistinctById(gs: seq<Group>)
    requires Distinct(IdsOf(gs))
    ensures Distinct(gs)
  {
    forall j, k | 0 <= j < k < |gs| ensures gs[j] != gs[k] {
      assert IdsOf(gs)[j] != IdsOf(gs)[k];
    }
  }

  /** Sorting groups leaves the same groups, each identity still once. */
  lemma ReorderedGroups(gs: seq<Group>, rs: seq<Group>)
    requires Distinct(IdsOf(gs)) && multiset(gs) == multiset(rs)
    ensures Distinct(IdsOf(rs))
    ensures forall g :: g in gs <==> g in rs
    ensures forall id :: id in IdsOf(gs) <==> id in IdsOf(rs)
  {
    DistinctById(gs);
    PermutationDistinct(gs, rs);
    forall j, k | 0 <= j < k < |rs| ensures IdsOf(rs)[j] != IdsOf(rs)[k] {
      assert rs[j] in gs && rs[k] in gs && rs[j] != rs[k];
      var x :| 0 <= x < |gs| && gs[x] == rs[j];
      var y :| 0 <= y < |gs| && gs[y] == rs[k];
      assert IdsOf(gs)[x] != IdsOf(gs)[y];
    }
    forall id ensures id in IdsOf(gs) <==> id in IdsOf(rs) {
      IdsFromGroups(gs, rs, id);
      IdsFromGroups(rs, gs, id);
    }
  }

  lemma IdsFromGroups(gs: seq<Group>, rs: seq<Group>, id: Identity)
    requires forall g :: g in gs ==> g in rs
    ensures id in IdsOf(gs) ==> id in IdsOf(rs)
  {
    if id in IdsOf(gs) {
      var k :| 0 <= k < |gs| && IdsOf(gs)[k] == id;
      assert gs[k] in gs;
      var j :| 0 <= j < |rs| && rs[j] == gs[k];
      assert IdsOf(rs)[j] == id;
    }
  }

  method LockOrder(ghost b: Batch, groups: seq<Group>) returns (order: seq<Group>)
    requires Grouped(b, groups)
    ensures Grouped(b, order) && SortedBy(order, LockBefore) && multiset(order) == multiset(groups)
  {
    LockOrderTotal();
    order := Sort(groups, LockBefore);
    ReorderedGroups(groups, order);
    forall k | 0 <= k < |order| ensures IsGroup(b, order[k]) {
      assert order[k] in groups;
    }
  }
}
