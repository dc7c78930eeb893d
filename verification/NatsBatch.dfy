/** NATS batches: which fetched deliveries form one batch, and what becomes of each. */
module NatsBatch {
  import opened InboxTables
  import opened InboxBatch
  import opened InboxBatchStore
  import opened InboxAcks
  import opened Deliveries
  import opened DeliveryBatches
  import opened NatsHandoff
  import InboxSqlite

  /** A fetched message: its place in the stream and how often the broker has delivered it. */
  datatype Delivery = Delivery(i: nat, m: Msg, delivered: nat)

  predicate Decodable(d: Delivery) {
    d.m.body.Some? && d.m.body.value.typed
  }

  function SizeOf(d: Delivery): nat {
    if Decodable(d) then d.m.body.value.size else |d.m.data|
  }

  function Bytes(ds: seq<Delivery>): nat {
    if ds == [] then 0 else Bytes(ds[..|ds| - 1]) + SizeOf(ds[|ds| - 1])
  }

  /** Two deliveries of one logical message under different attempt generations. */
  predicate Clash(a: Delivery, b: Delivery) {
    Decodable(a) && Decodable(b) && a.m.body.value.item == b.m.body.value.item && a.m.generation != b.m.generation
  }

  predicate Eligible(d: Delivery, now: Time) {
    Decodable(d) && Entrance(d.m, d.delivered, now).None?
  }

  // ---------------------------------------------------------------- collecting

  ghost predicate Apart(ds: seq<Delivery>) {
    forall i, j | 0 <= i < j < |ds| :: !Clash(ds[i], ds[j])
  }

  /** The batch and the returned deliveries share out the fetched ones, each list in fetch order. */
  ghost predicate SharesOut(fetched: seq<Delivery>, batch: seq<Delivery>, returned: seq<Delivery>) {
    exists keep: nat -> bool :: batch == Picked(fetched, keep) && returned == Picked(fetched, (k: nat) => !keep(k))
  }

  ghost function Picked(ds: seq<Delivery>, keep: nat -> bool): seq<Delivery> {
    if ds == [] then []
    else Picked(ds[..|ds| - 1], keep) + if keep(|ds| - 1) then [ds[|ds| - 1]] else []
  }

  lemma {:induction false} PickedAlike(ds: seq<Delivery>, f: nat -> bool, g: nat -> bool)
    requires forall k: nat | k < |ds| :: f(k) == g(k)
    ensures Picked(ds, f) == Picked(ds, g)
  {
    if ds != [] {
      PickedAlike(ds[..|ds| - 1], f, g);
    }
  }

  lemma ShareNext(fetched: seq<Delivery>, batch: seq<Delivery>, returned: seq<Delivery>, d: Delivery, keeps: bool)
    requires SharesOut(fetched, batch, returned)
    ensures SharesOut(fetched + [d], if keeps then batch + [d] else batch, if keeps then returned else returned + [d])
  {
    var keep: nat -> bool :| batch == Picked(fetched, keep) && returned == Picked(fetched, (k: nat) => !keep(k));
    var n, all := |fetched|, fetched + [d];
    var next := (k: nat) => if k == n then keeps else keep(k);
    assert all[..n] == fetched && all[n] == d;
    PickedAlike(fetched, keep, next);
    PickedAlike(fetched, (k: nat) => !keep(k), (k: nat) => !next(k));
    assert Picked(all, next) == Picked(fetched, next) + if keeps then [d] else [];
    assert Picked(all, (k: nat) => !next(k)) == Picked(fetched, (k: nat) => !next(k)) + if keeps then [] else [d];
  }

  method HasConflict(batch: seq<Delivery>, d: Delivery) returns (found: bool)
    ensures found <==> exists k | 0 <= k < |batch| :: Clash(batch[k], d)
  {
    found := false;
    for k := 0 to |batch|
      invariant found <==> exists j | 0 <= j < k :: Clash(batch[j], d)
    {
      if Clash(batch[k], d) {
        found := true;
      }
    }
  }

  /** The batch so far: what was fetched is shared out, nothing clashes, and the bytes fit. */
  ghost predicate Gathered(maxBytes: nat, fetched: seq<Delivery>, batch: seq<Delivery>, returned: seq<Delivery>, bytes: nat) {
    SharesOut(fetched, batch, returned) && Apart(batch) && bytes == Bytes(batch) && (bytes <= maxBytes || |batch| == 1)
  }

  lemma CollectFirst(maxBytes: nat, d: Delivery)
    ensures Gathered(maxBytes, [d], [d], [], SizeOf(d))
  {
    var all: nat -> bool := _ => true;
    assert Picked([], all) == [] && Picked([], (k: nat) => !all(k)) == [];
    assert SharesOut([], [], []);
    hide Picked;
    ShareNext([], [], [], d, true);
    assert [] + [d] == [d];
    BytesSnoc([], d);
  }

  lemma CollectNext(maxBytes: nat, fetched: seq<Delivery>, batch: seq<Delivery>, returned: seq<Delivery>, bytes: nat, d: Delivery)
    requires Gathered(maxBytes, fetched, batch, returned, bytes)
    ensures Gathered(maxBytes, fetched + [d], batch, returned + [d], bytes)
    ensures !(exists k | 0 <= k < |batch| :: Clash(batch[k], d)) && bytes + SizeOf(d) <= maxBytes ==>
              Gathered(maxBytes, fetched + [d], batch + [d], returned, bytes + SizeOf(d))
  {
    hide SharesOut, Clash, Bytes, SizeOf;
    ShareNext(fetched, batch, returned, d, false);
    ShareNext(fetched, batch, returned, d, true);
    BytesSnoc(batch, d);
    hide Apart;
    if !(exists k | 0 <= k < |batch| :: Clash(batch[k], d)) {
      ApartSnoc(batch, d);
    }
  }

  lemma BytesSnoc(ds: seq<Delivery>, d: Delivery)
    ensures Bytes(ds + [d]) == Bytes(ds) + SizeOf(d)
  {
    assert (ds + [d])[..|ds|] == ds;
  }

  lemma ApartSnoc(ds: seq<Delivery>, d: Delivery)
    requires Apart(ds) && forall k | 0 <= k < |ds| :: !Clash(ds[k], d)
    ensures Apart(ds + [d])
  {
    hide Clash;
  }

  lemma NothingGathered()
    ensures SharesOut([], [], []) && Apart([])
  {
    var all: nat -> bool := _ => true;
    assert Picked([], all) == [] && Picked([], (k: nat) => !all(k)) == [];
  }

  lemma GatheredIs(maxBytes: nat, fetched: seq<Delivery>, batch: seq<Delivery>, returned: seq<Delivery>, bytes: nat)
    requires Gathered(maxBytes, fetched, batch, returned, bytes)
    ensures SharesOut(fetched, batch, returned) && Apart(batch) && (Bytes(batch) <= maxBytes || |batch| == 1)
  {
  }

  /** A first delivery, and unless that one must go alone a second fetch of at most as many as are missing;
      what clashes or does not fit goes back to the broker. fill is what the second fetch yields in the
      time that is left. */
  method CollectNatsBatch(maxMessages: nat, maxBytes: nat, first: Option<Delivery>, fill: seq<Delivery>, now: Time)
    returns (batch: seq<Delivery>, returned: seq<Delivery>, fetched: seq<Delivery>)
    requires maxMessages > 0 && maxBytes > 0 && |fill| < maxMessages
    ensures SharesOut(fetched, batch, returned) && Apart(batch) && |batch| <= maxMessages
    ensures batch == [] <==> first.None?
    ensures first.Some? ==> |batch| > 0 && batch[0] == first.value && (Bytes(batch) <= maxBytes || batch == [first.value])
    ensures fetched == if first.None? then []
                       else if !Eligible(first.value, now) || maxMessages == 1 || SizeOf(first.value) >= maxBytes
                       then [first.value] else [first.value] + fill
  {
    hide *;
    NothingGathered();
    if first.None? {
      return [], [], [];
    }
    CollectFirst(maxBytes, first.value);
    batch, returned, fetched := [first.value], [], [first.value];
    var bytes: nat := SizeOf(first.value);
    if Eligible(first.value, now) && maxMessages != 1 && bytes < maxBytes {
      for n := 0 to |fill|
        invariant fetched == [first.value] + fill[..n] && Gathered(maxBytes, fetched, batch, returned, bytes)
        invariant 0 < |batch| <= n + 1 && batch[0] == first.value
      {
        var d := fill[n];
        var conflict := HasConflict(batch, d);
        CollectNext(maxBytes, fetched, batch, returned, bytes, d);
        assert fill[..n + 1] == fill[..n] + [d];
        fetched := fetched + [d];
        if conflict || SizeOf(d) > maxBytes - bytes {
          returned := returned + [d];
        } else {
          batch, bytes := batch + [d], bytes + SizeOf(d);
        }
      }
      assert fill[..|fill|] == fill;
    }
    GatheredIs(maxBytes, fetched, batch, returned, bytes);
  }

  // ---------------------------------------------------------------- deciding

  function IncomingOf(s: Settings, d: Delivery, now: Time): Incoming {
    match Entrance(d.m, d.delivered, now)
    case Some(fate) => Early(fate)
    case None => Enters(ItemOf(s, d.m), 0)
  }

  function AllIncoming(s: Settings, batch: seq<Delivery>, now: Time): (r: seq<Incoming>)
    ensures |r| == |batch| && forall k | 0 <= k < |r| :: r[k] == IncomingOf(s, batch[k], now)
  {
    seq(|batch|, k requires 0 <= k < |batch| => IncomingOf(s, batch[k], now))
  }

  /** Collection has ruled out the batches that the Inbox refuses for mixed consumers or generations. */
  lemma GatheredIsUniform(s: Settings, batch: seq<Delivery>, now: Time)
    requires Apart(batch)
    ensures Uniform(AllIncoming(s, batch, now))
  {
    var ins := AllIncoming(s, batch, now);
    forall i, j | 0 <= i < j < |ins| && ins[i].Enters? && ins[j].Enters?
      ensures ins[i].item.key.id.consumer == ins[j].item.key.id.consumer
      ensures ins[i].item.key.id == ins[j].item.key.id ==> ins[i].item.key == ins[j].item.key
    {
      assert !Clash(batch[i], batch[j]);
    }
  }

  ghost predicate AllOk(s: Settings, db: Tables, batch: seq<Delivery>, fates: seq<Fate>) {
    |fates| == |batch| && forall k | 0 <= k < |batch| :: FateOk(s, db, batch[k].m, fates[k])
  }

  lemma KeptIsOk(s: Settings, db: Tables, batch: seq<Delivery>, now: Time, indexes: seq<nat>, report: BatchReport, fates: seq<Fate>)
    requires AllKept(db, AllIncoming(s, batch, now), fates)
    requires FatesGiven(AllIncoming(s, batch, now), indexes, report, fates)
    ensures AllOk(s, db, batch, fates)
  {
    hide ReportedFate, AwaitsHandoff;
    var ins := AllIncoming(s, batch, now);
    forall k | 0 <= k < |batch| ensures FateOk(s, db, batch[k].m, fates[k]) {
      assert ins[k].Enters? ==> Kept(db, ins[k].item, fates[k]);
    }
  }

  /** Runs one batch through the Inbox and gives every delivery exactly one fate; None means that the
      handler's answer was unusable and nothing was written. */
  method ProcessNatsBatch(s: Settings, store: InboxSqlite.Backend, batch: seq<Delivery>, handler: BatchHandler, now: Time)
    returns (fates: Option<seq<Fate>>, indexes: seq<nat>, valid: seq<BatchItem>)
    requires s.limit > 0 && Apart(batch)
    modifies store
    ensures Entered(AllIncoming(s, batch, now), indexes, valid)
    ensures store.db == RunBatch(old(store.db), valid, s.limit, handler, now).0
    ensures var report := RunBatch(old(store.db), valid, s.limit, handler, now).1;
            if report.Rejected? && report.why.InvalidResult? then fates.None?
            else fates.Some? && FatesGiven(AllIncoming(s, batch, now), indexes, report, fates.value)
    ensures fates.Some? ==> AllOk(s, store.db, batch, fates.value)
  {
    hide *;
    GatheredIsUniform(s, batch, now);
    ghost var before := store.db;
    fates, indexes, valid := DecideBatch(store, s.limit, AllIncoming(s, batch, now), handler, now);
    if fates.Some? {
      KeptIsOk(s, store.db, batch, now, indexes, RunBatch(before, valid, s.limit, handler, now).1, fates.value);
    }
  }
}
