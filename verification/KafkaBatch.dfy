/** Which polled records form one Kafka batch, and which offsets are set for it. */
module KafkaBatch {
  import opened InboxTables
  import opened KafkaRecords
  import opened Sorting

  datatype Config = Config(subscription: Subscription, maxMessages: nat, maxBytes: nat) {
    /** What configuration validation leaves possible. */
    predicate Valid() {
      maxMessages > 0 && maxBytes > 0
    }
  }

  /** A record as one poll returned it, with the clock reading under which it was looked at. */
  datatype Polled = Polled(record: LogRecord, now: Time)

  datatype Selected = Selected(record: LogRecord, prepared: Prepared, bytes: nat)

  datatype EpochOffset = EpochOffset(epoch: nat, offset: nat)

  function PreparedBy(cfg: Config, p: Polled): Prepared {
    Prepare(cfg.subscription, p.record, p.now)
  }

  function Take(cfg: Config, p: Polled): Selected {
    var prepared := PreparedBy(cfg, p);
    Selected(p.record, prepared, if prepared.Ready? then prepared.message.size else p.record.size)
  }

  // ---------------------------------------------------------------- reference: the greedy prefix

  function Bytes(cfg: Config, ps: seq<Polled>): nat {
    if ps == [] then 0 else Bytes(cfg, ps[..|ps| - 1]) + Take(cfg, ps[|ps| - 1]).bytes
  }

  function TakeAll(cfg: Config, ps: seq<Polled>): (r: seq<Selected>)
    ensures |r| == |ps| && forall k | 0 <= k < |r| :: r[k] == Take(cfg, ps[k])
  {
    seq(|ps|, k requires 0 <= k < |ps| => Take(cfg, ps[k]))
  }

  /** Two deliveries of one logical message under different attempt generations. */
  predicate Clash(a: Selected, b: Selected) {
    a.prepared.Ready? && b.prepared.Ready? && a.prepared.message.item == b.prepared.message.item
    && a.prepared.control.generation != b.prepared.control.generation
  }

  predicate ClashesWith(cfg: Config, chosen: seq<Polled>, p: Polled) {
    exists k | 0 <= k < |chosen| :: Clash(Take(cfg, chosen[k]), Take(cfg, p))
  }

  predicate HasRoom(cfg: Config, chosen: seq<Polled>) {
    |chosen| < cfg.maxMessages && Bytes(cfg, chosen) < cfg.maxBytes
  }

  predicate Admits(cfg: Config, chosen: seq<Polled>, p: Polled) {
    && HasRoom(cfg, chosen) && !PreparedBy(cfg, p).Waiting? && !ClashesWith(cfg, chosen, p)
    && (chosen != [] ==> Take(cfg, p).bytes <= cfg.maxBytes - Bytes(cfg, chosen))
  }

  /** How many records of one partition a batch takes: as many as are admitted one after another. */
  function CutFrom(cfg: Config, seen: seq<Polled>, k: nat): (r: nat)
    requires k <= |seen|
    ensures k <= r <= |seen|
    decreases |seen| - k
  {
    if k < |seen| && Admits(cfg, seen[..k], seen[k]) then CutFrom(cfg, seen, k + 1) else k
  }

  function Cut(cfg: Config, seen: seq<Polled>): (r: nat)
    ensures r <= |seen|
  {
    CutFrom(cfg, seen, 0)
  }

  lemma {:induction false} CutMeans(cfg: Config, seen: seq<Polled>, k: nat)
    requires k <= |seen|
    ensures var r := CutFrom(cfg, seen, k);
            && (forall j | k <= j < r :: Admits(cfg, seen[..j], seen[j]))
            && (r < |seen| ==> !Admits(cfg, seen[..r], seen[r]))
    decreases |seen| - k
  {
    hide Admits;
    if k < |seen| && Admits(cfg, seen[..k], seen[k]) {
      CutMeans(cfg, seen, k + 1);
    }
  }

  lemma {:induction false} CutIs(cfg: Config, seen: seq<Polled>, k: nat, r: nat)
    requires k <= r <= |seen|
    requires forall j | k <= j < r :: Admits(cfg, seen[..j], seen[j])
    requires r < |seen| ==> !Admits(cfg, seen[..r], seen[r])
    ensures CutFrom(cfg, seen, k) == r
    decreases |seen| - k
  {
    hide Admits;
    if k < r {
      CutIs(cfg, seen, k + 1, r);
    }
  }

  /** Looking at one more record moves the cut only if everything so far was taken and it is admitted. */
  lemma CutGrows(cfg: Config, seen: seq<Polled>, p: Polled)
    ensures var k := Cut(cfg, seen);
            Cut(cfg, seen + [p]) == if k == |seen| && Admits(cfg, seen, p) then k + 1 else k
  {
    var k, next := Cut(cfg, seen), seen + [p];
    CutMeans(cfg, seen, 0);
    assert next[..|seen|] == seen && next[|seen|] == p && next[..|next|] == next;
    forall j | 0 <= j < k ensures Admits(cfg, next[..j], next[j]) {
      assert next[..j] == seen[..j];
    }
    if k == |seen| && Admits(cfg, seen, p) {
      CutIs(cfg, next, 0, k + 1);
    } else {
      assert next[..k] == seen[..k];
      assert seen[..|seen|] == seen;
      CutIs(cfg, next, 0, k);
    }
  }

  /** The records of one partition among those polled, in poll order. */
  function Own(ps: seq<Polled>, at: TopicPartition): seq<Polled> {
    if ps == [] then []
    else Own(ps[..|ps| - 1], at) + (if Place(ps[|ps| - 1].record) == at then [ps[|ps| - 1]] else [])
  }

  lemma OwnStep(ps: seq<Polled>, p: Polled, at: TopicPartition)
    ensures Own(ps + [p], at) == Own(ps, at) + (if Place(p.record) == at then [p] else [])
  {
    assert (ps + [p])[..|ps|] == ps;
  }

  // ---------------------------------------------------------------- the polled batch

  /** The selection fields after the records seen of one partition have been looked at once each. */
  ghost predicate Reflected(cfg: Config, seen: seq<Polled>, records: seq<Selected>, bytes: nat, stopped: bool,
                            firstUnprocessed: Option<LogRecord>, firstDeferred: Option<LogRecord>, deferUntil: Time)
  {
    var k := Cut(cfg, seen);
    && records == TakeAll(cfg, seen[..k]) && bytes == Bytes(cfg, seen[..k])
    && (stopped <==> k < |seen| || bytes >= cfg.maxBytes)
    && firstUnprocessed == (if k < |seen| then Some(seen[k].record) else None)
    && (firstDeferred.Some? <==> k < |seen| && HasRoom(cfg, seen[..k]) && PreparedBy(cfg, seen[k]).Waiting?)
    && (firstDeferred.Some? ==>
          firstDeferred == Some(seen[k].record) && deferUntil == PreparedBy(cfg, seen[k]).at)
  }

  lemma CutStays(cfg: Config, seen: seq<Polled>, p: Polled)
    requires Cut(cfg, seen) < |seen| || !Admits(cfg, seen, p)
    ensures var k := Cut(cfg, seen); var next := seen + [p];
            Cut(cfg, next) == k && next[..k] == seen[..k] && next[k] == (if k < |seen| then seen[k] else p)
  {
    hide Cut, Admits;
    CutGrows(cfg, seen, p);
  }

  /** Once the selection is over, further records of the partition change nothing. */
  lemma StaysOver(cfg: Config, seen: seq<Polled>, p: Polled, records: seq<Selected>, bytes: nat, stopped: bool,
                  unprocessed: Option<LogRecord>, deferred: Option<LogRecord>, at: Time)
    requires Reflected(cfg, seen, records, bytes, stopped, unprocessed, deferred, at)
    requires stopped || |records| >= cfg.maxMessages
    ensures Reflected(cfg, seen + [p], records, bytes, true,
                      if unprocessed.None? then Some(p.record) else unprocessed, deferred, at)
  {
    hide Cut, Bytes, PreparedBy, Take;
    assert seen[..|seen|] == seen;
    CutStays(cfg, seen, p);
  }

  lemma EndsHere(cfg: Config, seen: seq<Polled>, p: Polled, records: seq<Selected>, bytes: nat, at: Time)
    requires Reflected(cfg, seen, records, bytes, false, None, None, at) && !Admits(cfg, seen, p)
    requires |records| < cfg.maxMessages
    ensures PreparedBy(cfg, p).Waiting? ==>
              Reflected(cfg, seen + [p], records, bytes, true, Some(p.record), Some(p.record), PreparedBy(cfg, p).at)
    ensures !PreparedBy(cfg, p).Waiting? ==>
              Reflected(cfg, seen + [p], records, bytes, true, Some(p.record), None, at)
  {
    hide Cut, Bytes, PreparedBy, Take, Admits;
    assert seen[..|seen|] == seen;
    CutStays(cfg, seen, p);
  }

  lemma GoesOn(cfg: Config, seen: seq<Polled>, p: Polled, records: seq<Selected>, bytes: nat, at: Time)
    requires Reflected(cfg, seen, records, bytes, false, None, None, at) && Admits(cfg, seen, p)
    ensures var more := bytes + Take(cfg, p).bytes;
            Reflected(cfg, seen + [p], records + [Take(cfg, p)], more, more >= cfg.maxBytes, None, None, at)
  {
    hide Cut, Bytes, PreparedBy, Take, Admits;
    assert seen[..|seen|] == seen && (seen + [p])[..|seen| + 1] == seen + [p];
    CutGrows(cfg, seen, p);
    TakeGrows(cfg, seen, p);
  }

  /** While the selection runs, admission is what the fields say. */
  lemma AdmissionTest(cfg: Config, seen: seq<Polled>, p: Polled, records: seq<Selected>, bytes: nat,
                      unprocessed: Option<LogRecord>, deferred: Option<LogRecord>, at: Time)
    requires Reflected(cfg, seen, records, bytes, false, unprocessed, deferred, at) && |records| < cfg.maxMessages
    ensures var item := Take(cfg, p);
            && unprocessed.None? && deferred.None? && item.prepared == PreparedBy(cfg, p)
            && (Admits(cfg, seen, p) <==>
                  && !item.prepared.Waiting? && !(exists k | 0 <= k < |records| :: Clash(records[k], item))
                  && (|records| != 0 ==> item.bytes <= cfg.maxBytes - bytes))
  {
    hide Cut, Bytes, PreparedBy, Take, ClashesWith;
    assert seen[..|seen|] == seen;
    TakeGrows(cfg, seen, p);
  }

  lemma TakeGrows(cfg: Config, seen: seq<Polled>, p: Polled)
    ensures TakeAll(cfg, seen + [p]) == TakeAll(cfg, seen) + [Take(cfg, p)]
    ensures Bytes(cfg, seen + [p]) == Bytes(cfg, seen) + Take(cfg, p).bytes
    ensures Take(cfg, p).prepared == PreparedBy(cfg, p)
    ensures ClashesWith(cfg, seen, p) <==>
              exists k | 0 <= k < |TakeAll(cfg, seen)| :: Clash(TakeAll(cfg, seen)[k], Take(cfg, p))
  {
    hide PreparedBy, Clash;
    assert Take(cfg, p).prepared == PreparedBy(cfg, p);
    hide Take;
    assert (seen + [p])[..|seen|] == seen;
    if ClashesWith(cfg, seen, p) {
      var k :| 0 <= k < |seen| && Clash(Take(cfg, seen[k]), Take(cfg, p));
      assert Clash(TakeAll(cfg, seen)[k], Take(cfg, p));
    }
  }

  // ---------------------------------------------------------------- offsets

  /** The first record with the least offset among those polled from one partition. */
  function Earliest(ps: seq<Polled>, at: TopicPartition): Option<EpochOffset> {
    if ps == [] then None
    else
      var before, r := Earliest(ps[..|ps| - 1], at), ps[|ps| - 1].record;
      if Place(r) == at && (before.None? || r.offset < before.value.offset) then Some(EpochOffset(r.epoch, r.offset))
      else before
  }

  lemma EarliestStep(ps: seq<Polled>, p: Polled, at: TopicPartition)
    ensures Earliest(ps + [p], at)
            == if Place(p.record) == at
                  && (Earliest(ps, at).None? || p.record.offset < Earliest(ps, at).value.offset)
               then Some(EpochOffset(p.record.epoch, p.record.offset)) else Earliest(ps, at)
  {
    assert (ps + [p])[..|ps|] == ps;
  }

  lemma {:induction false} EarliestMeans(ps: seq<Polled>, at: TopicPartition, i: nat)
    requires i < |ps| && Place(ps[i].record) == at
    ensures Earliest(ps, at).Some? && Earliest(ps, at).value.offset <= ps[i].record.offset
  {
    var n := |ps| - 1;
    if i < n {
      EarliestMeans(ps[..n], at, i);
    }
  }

  ghost predicate TracksEarliest(earliest: map<TopicPartition, EpochOffset>, polled: seq<Polled>) {
    forall at :: Row(earliest, at) == Earliest(polled, at)
  }

  method RecordEarliest(earliest: map<TopicPartition, EpochOffset>, ps: seq<Polled>, ghost polled: seq<Polled>)
    returns (r: map<TopicPartition, EpochOffset>)
    requires TracksEarliest(earliest, polled)
    ensures TracksEarliest(r, polled + ps)
  {
    r := earliest;
    assert polled + ps[..0] == polled;
    for n := 0 to |ps|
      invariant TracksEarliest(r, polled + ps[..n])
    {
      var at, offset := Place(ps[n].record), ps[n].record.offset;
      assert polled + ps[..n + 1] == polled + ps[..n] + [ps[n]];
      forall a ensures Earliest(polled + ps[..n + 1], a)
                       == if at == a && (Row(r, a).None? || offset < r[a].offset)
                          then Some(EpochOffset(ps[n].record.epoch, offset)) else Row(r, a) {
        EarliestStep(polled + ps[..n], ps[n], a);
      }
      hide Earliest;
      if at !in r || offset < r[at].offset {
        r := r[at := EpochOffset(ps[n].record.epoch, offset)];
      }
    }
    assert polled + ps[..|ps|] == polled + ps;
  }

  class PolledBatch {
    var records: seq<Selected>
    var bytes: nat
    var stopped: bool
    var firstUnprocessed: Option<LogRecord>
    var firstDeferred: Option<LogRecord>
    var deferUntil: Time
    var earliest: map<TopicPartition, EpochOffset>
    const partition: TopicPartition
    const first: LogRecord

    constructor(polled: seq<Polled>, ghost cfg: Config)
      requires polled != [] && cfg.Valid()
      ensures first == polled[0].record && partition == Place(first)
      ensures Reflects(cfg, []) && TracksEarliest(earliest, [])
    {
      first, partition := polled[0].record, Place(polled[0].record);
      records, bytes, stopped := [], 0, false;
      firstUnprocessed, firstDeferred, deferUntil := None, None, 0;
      earliest := map[];
    }

    ghost predicate Reflects(cfg: Config, polled: seq<Polled>)
      reads this`records, this`bytes, this`stopped, this`firstUnprocessed, this`firstDeferred, this`deferUntil
    {
      Reflected(cfg, Own(polled, partition), records, bytes, stopped, firstUnprocessed, firstDeferred, deferUntil)
    }

    /** One polled record: appended, or the end of the selection, or another partition's. */
    method Look(cfg: Config, p: Polled, ghost polled: seq<Polled>)
      requires cfg.Valid() && Reflects(cfg, polled)
      modifies this`records, this`bytes, this`stopped, this`firstUnprocessed, this`firstDeferred, this`deferUntil
      ensures Reflects(cfg, polled + [p])
    {
      hide Reflected, Own, Place, Take, Admits, PreparedBy, Clash;
      ghost var seen := Own(polled, partition);
      OwnStep(polled, p, partition);
      if Place(p.record) != partition {
        assert seen + [] == seen;
        return;
      }
      if stopped || |records| >= cfg.maxMessages {
        StaysOver(cfg, seen, p, records, bytes, stopped, firstUnprocessed, firstDeferred, deferUntil);
        if firstUnprocessed.None? {
          firstUnprocessed := Some(p.record);
        }
        stopped := true;
        return;
      }
      var item := Take(cfg, p);
      AdmissionTest(cfg, seen, p, records, bytes, firstUnprocessed, firstDeferred, deferUntil);
      if item.prepared.Waiting? {
        EndsHere(cfg, seen, p, records, bytes, deferUntil);
        firstDeferred, deferUntil, firstUnprocessed, stopped := Some(p.record), item.prepared.at, Some(p.record), true;
        return;
      }
      if exists k | 0 <= k < |records| :: Clash(records[k], item) {
        EndsHere(cfg, seen, p, records, bytes, deferUntil);
        firstUnprocessed, stopped := Some(p.record), true;
        return;
      }
      if |records| != 0 && item.bytes > cfg.maxBytes - bytes {
        EndsHere(cfg, seen, p, records, bytes, deferUntil);
        firstUnprocessed, stopped := Some(p.record), true;
        return;
      }
      GoesOn(cfg, seen, p, records, bytes, deferUntil);
      records, bytes := records + [item], bytes + item.bytes;
      if bytes >= cfg.maxBytes {
        stopped := true;
      }
    }

    method SortByOffset(cfg: Config, ghost polls: seq<seq<Polled>>, ghost used: nat)
      requires used <= |polls| && InOrder(Flatten(polls)) && Reflects(cfg, Flatten(polls[..used]))
      modifies this`records
      ensures Reflects(cfg, Flatten(polls[..used]))
    {
      ghost var polled := Flatten(polls[..used]);
      PrefixInOrder(polls, used);
      var sorted := Sort(records, OffsetBefore);
      SortKeeps(cfg, polled, partition, Cut(cfg, Own(polled, partition)), sorted);
      records := sorted;
    }

    /** Looks at the records of one poll in order. */
    method Select(cfg: Config, ps: seq<Polled>, ghost polled: seq<Polled>)
      requires cfg.Valid() && Reflects(cfg, polled)
      modifies this`records, this`bytes, this`stopped, this`firstUnprocessed, this`firstDeferred, this`deferUntil
      ensures Reflects(cfg, polled + ps)
    {
      hide Reflects;
      assert polled + ps[..0] == polled;
      for n := 0 to |ps|
        invariant Reflects(cfg, polled + ps[..n])
      {
        assert polled + ps[..n + 1] == polled + ps[..n] + [ps[n]];
        Look(cfg, ps[n], polled + ps[..n]);
      }
      assert polled + ps[..|ps|] == polled + ps;
    }
  }

  function Flatten(polls: seq<seq<Polled>>): seq<Polled> {
    if polls == [] then [] else Flatten(polls[..|polls| - 1]) + polls[|polls| - 1]
  }

  /** Broker contract: within one partition, records arrive in increasing offset order. */
  ghost predicate InOrder(ps: seq<Polled>) {
    forall i, j | 0 <= i < j < |ps| && Place(ps[i].record) == Place(ps[j].record) ::
      ps[i].record.offset < ps[j].record.offset
  }

  predicate OffsetBefore(a: Selected, b: Selected) {
    a.record.offset <= b.record.offset
  }

  lemma {:induction false} OwnInOrder(ps: seq<Polled>, at: TopicPartition)
    requires InOrder(ps)
    ensures forall i, j | 0 <= i < j < |Own(ps, at)| :: Own(ps, at)[i].record.offset < Own(ps, at)[j].record.offset
    ensures forall p | p in Own(ps, at) :: p in ps && Place(p.record) == at
    ensures forall p | p in ps && Place(p.record) == at :: p in Own(ps, at)
  {
    if ps != [] {
      var n := |ps| - 1;
      OwnInOrder(ps[..n], at);
      assert ps == ps[..n] + [ps[n]];
      var front := Own(ps[..n], at);
      if Place(ps[n].record) == at {
        forall i | 0 <= i < |front| ensures front[i].record.offset < ps[n].record.offset {
          assert front[i] in ps[..n];
          var k :| 0 <= k < n && ps[k] == front[i];
        }
      }
    }
  }

  /** The batch already comes in offset order, so the final sort keeps it. */
  lemma SortKeeps(cfg: Config, polled: seq<Polled>, at: TopicPartition, k: nat, sorted: seq<Selected>)
    requires InOrder(polled) && k <= |Own(polled, at)|
    requires SortedBy(sorted, OffsetBefore) && multiset(sorted) == multiset(TakeAll(cfg, Own(polled, at)[..k]))
    ensures sorted == TakeAll(cfg, Own(polled, at)[..k])
  {
    OwnInOrder(polled, at);
    hide Own, InOrder;
    StrictlySortedAlready(TakeAll(cfg, Own(polled, at)[..k]), sorted, OffsetBefore);
  }

  /** One batch out of a first poll and any number of fill polls; fill polls end early when the fill
      deadline passes, which is where the list of polls ends. */
  method Collect(cfg: Config, polls: seq<seq<Polled>>) returns (batch: PolledBatch?, used: nat)
    requires cfg.Valid() && InOrder(Flatten(polls))
    ensures batch == null <==> polls == [] || polls[0] == []
    ensures batch != null ==>
              && fresh(batch) && 0 < used <= |polls|
              && batch.first == polls[0][0].record && batch.partition == Place(batch.first)
              && batch.Reflects(cfg, Flatten(polls[..used])) && TracksEarliest(batch.earliest, Flatten(polls[..used]))
  {
    hide *;
    if polls == [] || polls[0] == [] {
      return null, 0;
    }
    batch := new PolledBatch(polls[0], cfg);
    var earliest := batch.earliest;
    earliest := RecordEarliest(earliest, polls[0], []);
    batch.Select(cfg, polls[0], []);
    FlattenFirst(polls);
    used := 1;
    while used < |polls| && !batch.stopped && |batch.records| < cfg.maxMessages && batch.firstDeferred.None?
          && batch.bytes < cfg.maxBytes
      invariant 0 < used <= |polls| && fresh(batch)
      invariant batch.Reflects(cfg, Flatten(polls[..used])) && TracksEarliest(earliest, Flatten(polls[..used]))
    {
      var more := polls[used];
      if more == [] {
        break;
      }
      FlattenStep(polls, used);
      var count := |batch.records|;
      earliest := RecordEarliest(earliest, more, Flatten(polls[..used]));
      batch.Select(cfg, more, Flatten(polls[..used]));
      used := used + 1;
      if batch.stopped || batch.bytes >= cfg.maxBytes || |batch.records| == count {
        break;
      }
    }
    batch.earliest := earliest;
    batch.SortByOffset(cfg, polls, used);
  }

  lemma {:induction false} PrefixInOrder(polls: seq<seq<Polled>>, n: nat)
    requires n <= |polls| && InOrder(Flatten(polls))
    ensures InOrder(Flatten(polls[..n]))
    decreases |polls|
  {
    if n < |polls| {
      var last := |polls| - 1;
      var front := Flatten(polls[..last]);
      assert Flatten(polls)[..|front|] == front;
      PrefixInOrder(polls[..last], n);
      assert polls[..last][..n] == polls[..n];
    } else {
      assert polls[..n] == polls;
    }
  }

  lemma FlattenFirst(polls: seq<seq<Polled>>)
    requires polls != []
    ensures Flatten(polls[..1]) == [] + polls[0]
  {
    FlattenStep(polls, 0);
  }

  lemma FlattenStep(polls: seq<seq<Polled>>, n: nat)
    requires n < |polls|
    ensures Flatten(polls[..n + 1]) == Flatten(polls[..n]) + polls[n]
  {
    assert polls[..n + 1][..n] == polls[..n];
  }

  // ---------------------------------------------------------------- what the cut guarantees

  /** The batch respects both limits, is empty only when its first record is not due, and never
      holds one logical message under two generations. */
  lemma CutLimits(cfg: Config, seen: seq<Polled>)
    requires cfg.Valid()
    ensures var k := Cut(cfg, seen);
            && k <= cfg.maxMessages
            && (Bytes(cfg, seen[..k]) <= cfg.maxBytes || k == 1)
            && (seen != [] ==> (k == 0 <==> PreparedBy(cfg, seen[0]).Waiting?))
            && (forall i, j | 0 <= i < j < k :: !Clash(Take(cfg, seen[i]), Take(cfg, seen[j])))
  {
    CutMeans(cfg, seen, 0);
    var k := Cut(cfg, seen);
    hide *;
    if k > 0 {
      assert Admits(cfg, seen[..k - 1], seen[k - 1]);
      LastFits(cfg, seen, k - 1);
    }
    if seen != [] {
      assert seen[..0] == [];
      FirstAdmitted(cfg, seen[0]);
      assert k > 0 ==> Admits(cfg, seen[..0], seen[0]);
    }
    forall i, j | 0 <= i < j < k ensures !Clash(Take(cfg, seen[i]), Take(cfg, seen[j])) {
      assert Admits(cfg, seen[..j], seen[j]);
      AdmittedApart(cfg, seen, i, j);
    }
  }

  lemma LastFits(cfg: Config, seen: seq<Polled>, last: nat)
    requires last < |seen| && Admits(cfg, seen[..last], seen[last])
    ensures last < cfg.maxMessages && (Bytes(cfg, seen[..last + 1]) <= cfg.maxBytes || last == 0)
  {
    hide PreparedBy, Take, ClashesWith, Bytes, TakeAll;
    TakeGrows(cfg, seen[..last], seen[last]);
    assert seen[..last + 1] == seen[..last] + [seen[last]];
  }

  lemma FirstAdmitted(cfg: Config, p: Polled)
    requires cfg.Valid()
    ensures Admits(cfg, [], p) <==> !PreparedBy(cfg, p).Waiting?
  {
    hide PreparedBy, Take;
  }

  lemma AdmittedApart(cfg: Config, seen: seq<Polled>, i: nat, j: nat)
    requires i < j < |seen| && Admits(cfg, seen[..j], seen[j])
    ensures !Clash(Take(cfg, seen[i]), Take(cfg, seen[j]))
  {
    hide PreparedBy, Take, Clash;
    assert seen[..j][i] == seen[i];
  }

  function ProcessedOffsets(earliest: map<TopicPartition, EpochOffset>, last: LogRecord): map<TopicPartition, EpochOffset> {
    earliest[Place(last) := EpochOffset(last.epoch, last.offset + 1)]
  }

  function RewoundOffsets(earliest: map<TopicPartition, EpochOffset>, to: LogRecord): map<TopicPartition, EpochOffset> {
    earliest[Place(to) := EpochOffset(to.epoch, to.offset)]
  }

  lemma ElsewhereEarliest(polled: seq<Polled>, earliest: map<TopicPartition, EpochOffset>, p: Polled)
    requires TracksEarliest(earliest, polled) && p in polled
    ensures Place(p.record) in earliest && earliest[Place(p.record)].offset <= p.record.offset
  {
    hide Earliest;
    var i :| 0 <= i < |polled| && polled[i] == p;
    EarliestMeans(polled, Place(p.record), i);
    assert Row(earliest, Place(p.record)) == Earliest(polled, Place(p.record));
  }

  /** The offsets set for a processed batch lie beyond exactly its own records: every other polled
      record, on this partition or another, will be fetched again. */
  lemma NoRecordSkipped(cfg: Config, polled: seq<Polled>, at: TopicPartition,
                        earliest: map<TopicPartition, EpochOffset>, p: Polled)
    requires InOrder(polled) && TracksEarliest(earliest, polled) && p in polled
    requires Cut(cfg, Own(polled, at)) > 0
    ensures var seen := Own(polled, at); var k := Cut(cfg, seen);
            var offsets := ProcessedOffsets(earliest, seen[k - 1].record);
            && Place(p.record) in offsets
            && (p.record.offset < offsets[Place(p.record)].offset <==> p in seen[..k])
  {
    var seen, k := Own(polled, at), Cut(cfg, Own(polled, at));
    OwnInOrder(polled, at);
    if Place(p.record) != at {
      ElsewhereEarliest(polled, earliest, p);
    }
    hide Own, Cut, InOrder, TracksEarliest;
    assert seen[k - 1] in seen;
    if Place(p.record) == at {
      InPrefix(seen, k, p);
    } else {
      assert forall q | q in seen[..k] :: q in seen;
    }
  }

  lemma InPrefix(seen: seq<Polled>, k: nat, p: Polled)
    requires 0 < k <= |seen| && p in seen
    requires forall i, j | 0 <= i < j < |seen| :: seen[i].record.offset < seen[j].record.offset
    ensures p.record.offset < seen[k - 1].record.offset + 1 <==> p in seen[..k]
  {
    var i :| 0 <= i < |seen| && seen[i] == p;
    assert i < k ==> p == seen[..k][i];
    if p in seen[..k] {
      var j :| 0 <= j < k && seen[j] == p;
    }
  }

  /** Rewinding to the first record of the partition lets every polled record be fetched again. */
  lemma RewindKeepsAll(polled: seq<Polled>, at: TopicPartition, earliest: map<TopicPartition, EpochOffset>, p: Polled)
    requires InOrder(polled) && TracksEarliest(earliest, polled) && p in polled && Own(polled, at) != []
    ensures var offsets := RewoundOffsets(earliest, Own(polled, at)[0].record);
            Place(p.record) in offsets && offsets[Place(p.record)].offset <= p.record.offset
  {
    var seen := Own(polled, at);
    OwnInOrder(polled, at);
    hide Own, Earliest;
    assert seen[0] in seen;
    if Place(p.record) == at {
      var i :| 0 <= i < |seen| && seen[i] == p;
    } else {
      var i :| 0 <= i < |polled| && polled[i] == p;
      EarliestMeans(polled, Place(p.record), i);
      assert Row(earliest, Place(p.record)) == Earliest(polled, Place(p.record));
    }
  }
}
