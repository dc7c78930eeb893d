/** Finishing a NATS batch at the broker: acknowledgements, dead letters and confirmations, each of them steps
    of the hand-off machine. */
module NatsFinish {
  import opened InboxTables
  import opened InboxBatch
  import opened InboxBatchStore
  import opened InboxMaintenance
  import opened InboxAcks
  import opened InboxRuns
  import opened InboxGuarantees
  import opened Deliveries
  import opened DeliveryBatches
  import opened NatsHandoff
  import opened NatsBatch
  import InboxSqlite

  /** How the broker answers what is tried for one delivery, up to where the worker gives up. */
  datatype Answers = Answers(publishes: seq<Publication>, acks: seq<Response>)

  // ---------------------------------------------------------------- a batch in the world

  /** Every delivery of the batch is a worker of its own; worker k has the k-th delivery. */
  ghost predicate InStream(w: World, batch: seq<Delivery>) {
    forall k | 0 <= k < |batch| :: batch[k].i < |w.stream| && w.stream[batch[k].i] == batch[k].m
  }

  ghost predicate AllDecided(w: World, batch: seq<Delivery>, fates: seq<Fate>, from: nat) {
    |fates| == |batch| && forall k | from <= k < |batch| :: At(w, k) == NatsHandoff.Decided(batch[k].i, fates[k])
  }

  ghost predicate Identified(batch: seq<Delivery>, ids: seq<string>) {
    |ids| == |batch| && forall k | 0 <= k < |batch| :: IdOf(batch[k].m, ids[k])
  }

  /** A message that was acknowledged was completed with its content, or its content is in the dead-letter
      stream. */
  ghost predicate Justified(s: Settings, db: Tables, batch: seq<Delivery>, fates: seq<Fate>, dlq: Letters, i: nat)
    requires |fates| == |batch|
  {
    exists k | 0 <= k < |batch| :: batch[k].i == i && Grounds(s, db, batch[k].m, fates[k], dlq)
  }

  ghost predicate Grounds(s: Settings, db: Tables, m: Msg, f: Fate, dlq: Letters) {
    match f
    case Ack => m.body.Some? && CompletedAs(db, IdentityOf(s, m.body.value), m.body.value.fp)
    case Dead(_, _) => InLetters(dlq, m)
    case Retry(_, _) => false
  }

  lemma JustifiedGrows(s: Settings, db: Tables, batch: seq<Delivery>, fates: seq<Fate>, dlq: Letters, more: Letters, i: nat)
    requires |fates| == |batch| && dlq <= more && Justified(s, db, batch, fates, dlq, i)
    ensures Justified(s, db, batch, fates, more, i)
  {
    hide InLetters, CompletedAs;
    var k :| 0 <= k < |batch| && batch[k].i == i && Grounds(s, db, batch[k].m, fates[k], dlq);
    if fates[k].Dead? {
      LettersGrow(dlq, more, batch[k].m);
    }
    assert Grounds(s, db, batch[k].m, fates[k], more);
  }

  // ---------------------------------------------------------------- acknowledgements

  /** Acknowledges what was completed; a delivery that is to be retried stays with the broker. */
  method FinishOthers(ghost s: Settings, ghost db: Tables, ghost w: World, js: JetStream, batch: seq<Delivery>,
                      fates: seq<Fate>, answers: seq<Answers>)
    returns (ghost w': World)
    requires AllOk(s, db, batch, fates) && |answers| == |batch|
    requires forall k | 0 <= k < |answers| :: |answers[k].acks| > 0
    requires Shows(js, w) && AllDecided(w, batch, fates, 0)
    modifies js`acked
    ensures LeadsTo(s, w, w') && Shows(js, w') && w'.calls == w.calls && w'.stream == w.stream
    ensures forall k | 0 <= k < |batch| && !fates[k].Ack? :: At(w', k) == At(w, k)
    ensures old(js.acked) <= js.acked
    ensures forall i | i in js.acked && i !in old(js.acked) :: Justified(s, db, batch, fates, js.dlq, i)
    ensures forall k | 0 <= k < |batch| && fates[k].Ack? && answers[k].acks[0].Confirmed? :: batch[k].i in js.acked
  {
    w' := w;
    LeadsSelf(s, w);
    hide Next, LeadsTo, FateOk, Justified;
    for n := 0 to |batch|
      invariant LeadsTo(s, w, w') && Shows(js, w') && w'.calls == w.calls && w'.stream == w.stream && AllDecided(w', batch, fates, n)
      invariant forall k | 0 <= k < |batch| && !fates[k].Ack? :: At(w', k) == At(w, k)
      invariant old(js.acked) <= js.acked
      invariant forall i | i in js.acked && i !in old(js.acked) :: Justified(s, db, batch, fates, js.dlq, i)
      invariant forall k | 0 <= k < n && fates[k].Ack? && answers[k].acks[0].Confirmed? :: batch[k].i in js.acked
    {
      if fates[n].Ack? {
        AckIsJust(s, db, batch, fates, js.dlq, n);
        ghost var mid := AckIsNext(s, w', n, answers[n].acks[0]);
        LeadsNext(s, w, w', Acknowledges(n, answers[n].acks[0]), mid);
        var ok := js.DoubleAck(batch[n].i, answers[n].acks[0]);
        w' := mid;
      }
    }
  }

  lemma AckIsJust(s: Settings, db: Tables, batch: seq<Delivery>, fates: seq<Fate>, dlq: Letters, k: nat)
    requires AllOk(s, db, batch, fates) && k < |batch| && fates[k].Ack?
    ensures Justified(s, db, batch, fates, dlq, batch[k].i)
  {
    hide CompletedAs, InLetters;
    assert FateOk(s, db, batch[k].m, fates[k]);
    assert Grounds(s, db, batch[k].m, fates[k], dlq);
  }

  // ---------------------------------------------------------------- dead letters

  /** One of the batch's dead deliveries under its own identifier. */
  ghost predicate Letter(batch: seq<Delivery>, fates: seq<Fate>, ids: seq<string>, x: (string, Msg))
    requires |fates| == |batch| == |ids|
  {
    exists k | 0 <= k < |batch| :: fates[k].Dead? && x == (ids[k], batch[k].m)
  }

  predicate Succeeds(a: Answers) {
    AnyConfirmed(Replies(a.publishes)) && AnyConfirmed(a.acks)
  }

  /** Dead letters one by one, each in the stream before its message is acknowledged; confirm collects the
      closed cycles among those whose acknowledgement is confirmed. */
  method FinishDead(ghost s: Settings, ghost db: Tables, ghost w: World, js: JetStream, batch: seq<Delivery>,
                    fates: seq<Fate>, ids: seq<string>, answers: seq<Answers>)
    returns (confirm: seq<nat>, ghost w': World)
    requires AllOk(s, db, batch, fates) && |answers| == |batch| && Identified(batch, ids)
    requires Shows(js, w) && Genuine(js.dlq) && InStream(w, batch)
    requires forall k | 0 <= k < |batch| && fates[k].Dead? :: At(w, k) == NatsHandoff.Decided(batch[k].i, fates[k])
    modifies js
    ensures LeadsTo(s, w, w') && Shows(js, w') && w'.calls == w.calls && w'.stream == w.stream
    ensures old(js.dlq) <= js.dlq && old(js.acked) <= js.acked && Genuine(js.dlq)
    ensures forall i | i in js.acked && i !in old(js.acked) :: Justified(s, db, batch, fates, js.dlq, i)
    ensures forall x | |old(js.dlq)| <= x < |js.dlq| :: Letter(batch, fates, ids, js.dlq[x])
    ensures forall k | 0 <= k < |batch| && fates[k].Dead? && Succeeds(answers[k]) :: batch[k].i in js.acked
    ensures forall j | 0 <= j < |confirm| ::
              && confirm[j] < |batch| && fates[confirm[j]].Dead? && fates[confirm[j]].confirm
              && InLetters(js.dlq, batch[confirm[j]].m) && At(w', confirm[j]) == NatsHandoff.HandedOver(batch[confirm[j]].i)
    ensures forall k | 0 <= k < |batch| && fates[k].Dead? && fates[k].confirm && Succeeds(answers[k]) :: k in confirm
    ensures Increasing(confirm)
  {
    confirm, w' := [], w;
    LeadsSelf(s, w);
    hide *;
    IncreasingStart();
    AllOkIs(s, db, batch, fates);
    IdentifiedIs(batch, ids);
    for n := 0 to |batch|
      invariant LeadsTo(s, w, w') && Shows(js, w') && w'.calls == w.calls && w'.stream == w.stream
      invariant forall k | n <= k < |batch| && fates[k].Dead? :: At(w', k) == NatsHandoff.Decided(batch[k].i, fates[k])
      invariant old(js.dlq) <= js.dlq && old(js.acked) <= js.acked && Genuine(js.dlq)
      invariant forall i | i in js.acked && i !in old(js.acked) :: Justified(s, db, batch, fates, js.dlq, i)
      invariant forall x | |old(js.dlq)| <= x < |js.dlq| :: Letter(batch, fates, ids, js.dlq[x])
      invariant forall k | 0 <= k < n && fates[k].Dead? && Succeeds(answers[k]) :: batch[k].i in js.acked
      invariant forall j | 0 <= j < |confirm| ::
                  && confirm[j] < n && fates[confirm[j]].Dead? && fates[confirm[j]].confirm
                  && InLetters(js.dlq, batch[confirm[j]].m) && At(w', confirm[j]) == NatsHandoff.HandedOver(batch[confirm[j]].i)
      invariant forall k | 0 <= k < n && fates[k].Dead? && fates[k].confirm && Succeeds(answers[k]) :: k in confirm
      invariant Increasing(confirm)
    {
      if fates[n].Dead? {
        ghost var dlq, acked, before := js.dlq, js.acked, w';
        HoldsIt(w, w', batch, fates, ids, n);
        ghost var mid;
        var acknowledged;
        acknowledged, mid := DeadLetterAndAcknowledge(s, w', n, js, batch[n].i, batch[n].m, ids[n], answers[n].publishes,
                                                      answers[n].acks, false);
        w' := mid;
        LeadsOn(s, w, before, w');
        OneFinished(s, db, before, w', batch, fates, ids, n, dlq, js.dlq, acked, js.acked, confirm);
        SucceedsIs(answers[n]);
        forall i | i in js.acked && i !in old(js.acked) ensures Justified(s, db, batch, fates, js.dlq, i) {
          if i in acked {
            JustifiedGrows(s, db, batch, fates, dlq, js.dlq, i);
          }
        }
        forall x | |old(js.dlq)| <= x < |js.dlq| ensures Letter(batch, fates, ids, js.dlq[x]) {
          assert x < |dlq| ==> js.dlq[x] == dlq[x];
        }
        if acknowledged && fates[n].confirm {
          IncreasingNext(confirm, n);
          confirm := confirm + [n];
        }
      }
    }
  }

  lemma AllOkIs(s: Settings, db: Tables, batch: seq<Delivery>, fates: seq<Fate>)
    requires AllOk(s, db, batch, fates)
    ensures |fates| == |batch|
  {
  }

  lemma IncreasingStart()
    ensures Increasing([])
  {
  }

  lemma IncreasingNext(s: seq<nat>, n: nat)
    requires Increasing(s) && forall j | 0 <= j < |s| :: s[j] < n
    ensures Increasing(s + [n])
  {
  }

  lemma IdentifiedIs(batch: seq<Delivery>, ids: seq<string>)
    requires Identified(batch, ids)
    ensures |ids| == |batch|
  {
  }

  lemma SucceedsIs(a: Answers)
    ensures Succeeds(a) <==> AnyConfirmed(Replies(a.publishes)) && AnyConfirmed(a.acks)
  {
  }

  lemma HoldsIt(w: World, w': World, batch: seq<Delivery>, fates: seq<Fate>, ids: seq<string>, n: nat)
    requires InStream(w, batch) && w'.calls == w.calls && w'.stream == w.stream && Identified(batch, ids)
    requires n < |batch| == |fates| && fates[n].Dead? && At(w', n) == NatsHandoff.Decided(batch[n].i, fates[n])
    ensures |ids| == |batch| && HoldsDead(w', n, batch[n].i, batch[n].m, ids[n])
  {
    hide IdOf;
  }

  /** What the hand-off of one delivery means for the batch. */
  lemma OneFinished(s: Settings, db: Tables, w: World, w': World, batch: seq<Delivery>, fates: seq<Fate>, ids: seq<string>,
                    n: nat, dlq: Letters, more: Letters, acked: set<nat>, acked': set<nat>, confirm: seq<nat>)
    requires n < |batch| == |fates| == |ids| && fates[n].Dead? && OnlyWorker(w, w', n)
    requires AddsOnly(dlq, more, ids[n], batch[n].m, false)
    requires acked <= acked' <= acked + {batch[n].i} && (acked' != acked ==> InLetters(more, batch[n].m))
    ensures w'.calls == w.calls && w'.stream == w.stream && dlq <= more && (forall k: nat | k != n :: At(w', k) == At(w, k))
    ensures forall x | |dlq| <= x < |more| :: Letter(batch, fates, ids, more[x])
    ensures forall i | i in acked' && i !in acked :: Justified(s, db, batch, fates, more, i)
    ensures forall m :: InLetters(dlq, m) ==> InLetters(more, m)
  {
    hide InLetters;
    forall m ensures InLetters(dlq, m) ==> InLetters(more, m) {
      if InLetters(dlq, m) {
        LettersGrow(dlq, more, m);
      }
    }
    if acked' != acked {
      assert Grounds(s, db, batch[n].m, fates[n], more);
    }
  }

  // ---------------------------------------------------------------- confirmations

  function CycleAt(s: Settings, batch: seq<Delivery>, k: nat): Cycle
    requires k < |batch| && batch[k].m.body.Some?
  {
    CycleOf(ItemOf(s, batch[k].m).key, ItemOf(s, batch[k].m).fp)
  }

  /** Some worker of the batch has handed this cycle over, and its row can be confirmed. */
  ghost predicate Confirmer(s: Settings, w: World, batch: seq<Delivery>, k: nat, c: Cycle) {
    && k < |batch| && batch[k].m.body.Some? && CycleAt(s, batch, k) == c
    && At(w, k) == NatsHandoff.HandedOver(batch[k].i)
    && DecideConfirm(Inbox(w), ItemOf(s, batch[k].m).key, ItemOf(s, batch[k].m).fp).ConfirmOk?
  }

  lemma ConfirmIsNext(s: Settings, w: World, batch: seq<Delivery>, k: nat, now: Time) returns (w': World)
    requires InStream(w, batch) && k < |batch| && batch[k].m.body.Some? && At(w, k) == NatsHandoff.HandedOver(batch[k].i)
    ensures Next(s, w, Confirms(k, now), w') && w'.stream == w.stream && w'.dlq == w.dlq && w'.acked == w.acked
    ensures forall x: nat | x != k :: At(w', x) == At(w, x)
    ensures Inbox(w') == Confirm(Inbox(w), ItemOf(s, batch[k].m).key, ItemOf(s, batch[k].m).fp, now)
  {
    var item := ItemOf(s, batch[k].m);
    w' := w.(calls := w.calls + [DoConfirm(item.key, item.fp, now)], workers := w.workers[k := Idle]);
    assert w'.calls[..|w'.calls| - 1] == w.calls;
    hide Confirm, DecideConfirm, ItemOf;
  }

  lemma {:induction false} ConfirmsPath(s: Settings, w: World, batch: seq<Delivery>, done: set<Cycle>, now: Time)
    returns (w': World)
    requires InStream(w, batch) && forall c | c in done :: exists k: nat :: Confirmer(s, w, batch, k, c)
    ensures LeadsTo(s, w, w') && w'.stream == w.stream && w'.dlq == w.dlq && w'.acked == w.acked
    ensures Inbox(w') == ConfirmedAt(Inbox(w), done, now)
    ensures forall k: nat | k < |batch| && batch[k].m.body.Some? && CycleAt(s, batch, k) !in done :: At(w', k) == At(w, k)
    decreases |done|
  {
    hide *;
    if done == {} {
      w' := w;
      LeadsSelf(s, w);
      NoneConfirmed(Inbox(w), now);
    } else {
      var c :| c in done;
      var k: nat :| Confirmer(s, w, batch, k, c);
      ConfirmerIs(s, w, batch, k, c);
      var mid := ConfirmsPath(s, w, batch, done - {c}, now);
      var item := ItemOf(s, batch[k].m);
      ConfirmOne(Inbox(w), done - {c}, now, item);
      assert done - {c} + {c} == done;
      SameStream(w, mid, batch);
      w' := ConfirmIsNext(s, mid, batch, k, now);
      LeadsNext(s, w, mid, Confirms(k, now), w');
    }
  }

  lemma ConfirmerIs(s: Settings, w: World, batch: seq<Delivery>, k: nat, c: Cycle)
    requires Confirmer(s, w, batch, k, c)
    ensures k < |batch| && batch[k].m.body.Some? && CycleAt(s, batch, k) == c
    ensures CycleOf(ItemOf(s, batch[k].m).key, ItemOf(s, batch[k].m).fp) == c
    ensures At(w, k) == NatsHandoff.HandedOver(batch[k].i)
    ensures DecideConfirm(Inbox(w), ItemOf(s, batch[k].m).key, ItemOf(s, batch[k].m).fp).ConfirmOk?
  {
    hide Run, DecideConfirm;
  }

  lemma SameStream(w: World, w': World, batch: seq<Delivery>)
    requires InStream(w, batch) && w'.stream == w.stream
    ensures InStream(w', batch)
  {
  }

  // ---------------------------------------------------------------- the whole batch

  function ItemsAt(s: Settings, batch: seq<Delivery>, confirm: seq<nat>): (r: seq<BatchItem>)
    requires forall j | 0 <= j < |confirm| :: confirm[j] < |batch| && batch[confirm[j]].m.body.Some?
    ensures |r| == |confirm| && forall j | 0 <= j < |r| :: r[j] == ItemOf(s, batch[confirm[j]].m)
  {
    seq(|confirm|, j requires 0 <= j < |confirm| => ItemOf(s, batch[confirm[j]].m))
  }

  lemma ConfirmAwaits(s: Settings, db: Tables, batch: seq<Delivery>, fates: seq<Fate>, k: nat)
    requires AllOk(s, db, batch, fates) && k < |batch| && fates[k].Dead? && fates[k].confirm
    ensures batch[k].m.body.Some?
    ensures DecideConfirm(db, ItemOf(s, batch[k].m).key, ItemOf(s, batch[k].m).fp).ConfirmOk?
  {
    assert FateOk(s, db, batch[k].m, fates[k]);
    assert AwaitsHandoff(db, ItemOf(s, batch[k].m));
  }

  lemma SameHolders(w: World, w': World, batch: seq<Delivery>, fates: seq<Fate>)
    requires w'.calls == w.calls && w'.stream == w.stream && InStream(w, batch) && AllDecided(w, batch, fates, 0)
    requires forall k | 0 <= k < |batch| && !fates[k].Ack? :: At(w', k) == At(w, k)
    ensures InStream(w', batch) && Inbox(w') == Inbox(w)
    ensures forall k | 0 <= k < |batch| && fates[k].Dead? :: At(w', k) == NatsHandoff.Decided(batch[k].i, fates[k])
  {
    hide Run;
  }

  /** Finishes a batch at the broker: acknowledgements, then dead letters, then the confirmation of those dead
      letters that made it. All of it is a run of the hand-off machine, which ends in the state that the
      broker and the Inbox are left in. */
  method FinalizeBatch(s: Settings, ghost w: World, store: InboxSqlite.Backend, js: JetStream, batch: seq<Delivery>,
                       fates: seq<Fate>, ids: seq<string>, answers: seq<Answers>, now: Time, budget: nat)
    returns (ghost w': World, ghost done: set<Cycle>)
    requires AllOk(s, store.db, batch, fates) && |answers| == |batch| && Identified(batch, ids)
    requires forall k | 0 <= k < |answers| :: |answers[k].acks| > 0
    requires Shows(js, w) && Inbox(w) == store.db && Genuine(js.dlq)
    requires InStream(w, batch) && AllDecided(w, batch, fates, 0)
    modifies store, js
    ensures LeadsTo(s, w, w') && Shows(js, w') && Inbox(w') == store.db
    ensures old(js.dlq) <= js.dlq && old(js.acked) <= js.acked
    ensures forall i | i in js.acked && i !in old(js.acked) :: Justified(s, old(store.db), batch, fates, js.dlq, i)
    ensures forall x | |old(js.dlq)| <= x < |js.dlq| :: Letter(batch, fates, ids, js.dlq[x])
    ensures forall k | 0 <= k < |batch| && fates[k].Ack? && answers[k].acks[0].Confirmed? :: batch[k].i in js.acked
    ensures forall k | 0 <= k < |batch| && fates[k].Dead? && Succeeds(answers[k]) :: batch[k].i in js.acked
    ensures store.db == ConfirmedAt(old(store.db), done, now)
    ensures forall c | c in done :: DeadLetteredCycle(s, batch, fates, js.dlq, c)
    ensures |batch| <= budget ==>
              forall k | 0 <= k < |batch| && fates[k].Dead? && fates[k].confirm && Succeeds(answers[k]) ::
                batch[k].m.body.Some? && CycleAt(s, batch, k) in done
  {
    hide *;
    ghost var db := store.db;
    AllOkIs(s, db, batch, fates);
    IdentifiedIs(batch, ids);
    ghost var mid := FinishOthers(s, db, w, js, batch, fates, answers);
    SameHolders(w, mid, batch, fates);
    ghost var dlq, acked := js.dlq, js.acked;
    ghost var last;
    var confirm;
    confirm, last := FinishDead(s, db, mid, js, batch, fates, ids, answers);
    LeadsOn(s, w, mid, last);
    forall i | i in js.acked && i !in old(js.acked) ensures Justified(s, db, batch, fates, js.dlq, i) {
      if i in acked {
        JustifiedGrows(s, db, batch, fates, dlq, js.dlq, i);
      }
    }
    forall j | 0 <= j < |confirm|
      ensures confirm[j] < |batch| && batch[confirm[j]].m.body.Some?
      ensures DecideConfirm(db, ItemOf(s, batch[confirm[j]].m).key, ItemOf(s, batch[confirm[j]].m).fp).ConfirmOk?
    {
      ConfirmAwaits(s, db, batch, fates, confirm[j]);
    }
    done := ConfirmHandoffs(store, ItemsAt(s, batch, confirm), now, budget);
    StillThere(w, last, batch);
    forall c | c in done
      ensures DeadLetteredCycle(s, batch, fates, js.dlq, c) && exists k: nat :: Confirmer(s, last, batch, k, c)
    {
      ConfirmedIsDead(s, db, last, batch, fates, js.dlq, confirm, c);
    }
    IncreasingBound(confirm, |batch|);
    forall k | 0 <= k < |batch| && fates[k].Dead? && fates[k].confirm && Succeeds(answers[k])
      ensures batch[k].m.body.Some? && CycleAt(s, batch, k) in CyclesOf(ItemsAt(s, batch, confirm))
    {
      CycleListed(s, batch, confirm, k);
    }
    w' := ConfirmsPath(s, last, batch, done, now);
    LeadsOn(s, w, last, w');
    ShowsOn(js, last, w');
  }

  /** The cycle of a delivery that was dead-lettered as closed, with its content in the stream. */
  ghost predicate DeadLetteredCycle(s: Settings, batch: seq<Delivery>, fates: seq<Fate>, dlq: Letters, c: Cycle)
    requires |fates| == |batch|
  {
    exists k | 0 <= k < |batch| ::
      && fates[k].Dead? && fates[k].confirm && InLetters(dlq, batch[k].m) && batch[k].m.body.Some?
      && c == CycleAt(s, batch, k)
  }

  lemma CycleListed(s: Settings, batch: seq<Delivery>, confirm: seq<nat>, k: nat)
    requires forall j | 0 <= j < |confirm| :: confirm[j] < |batch| && batch[confirm[j]].m.body.Some?
    requires k in confirm
    ensures k < |batch| && batch[k].m.body.Some? && CycleAt(s, batch, k) in CyclesOf(ItemsAt(s, batch, confirm))
  {
    var j :| 0 <= j < |confirm| && confirm[j] == k;
    var items := ItemsAt(s, batch, confirm);
    assert CycleAt(s, batch, k) == CycleOf(items[j].key, items[j].fp);
  }

  lemma StillThere(w: World, w': World, batch: seq<Delivery>)
    requires InStream(w, batch) && w'.stream == w.stream && w'.calls == w.calls
    ensures InStream(w', batch) && Inbox(w') == Inbox(w)
  {
    hide Run;
  }

  lemma ShowsOn(js: JetStream, w: World, w': World)
    requires Shows(js, w) && w'.dlq == w.dlq && w'.acked == w.acked
    ensures Shows(js, w')
  {
  }

  lemma ConfirmedIsDead(s: Settings, db: Tables, w: World, batch: seq<Delivery>, fates: seq<Fate>, dlq: Letters,
                        confirm: seq<nat>, c: Cycle)
    requires |fates| == |batch| && Inbox(w) == db
    requires forall j | 0 <= j < |confirm| ::
               && confirm[j] < |batch| && fates[confirm[j]].Dead? && fates[confirm[j]].confirm
               && InLetters(dlq, batch[confirm[j]].m) && At(w, confirm[j]) == NatsHandoff.HandedOver(batch[confirm[j]].i)
    requires forall j | 0 <= j < |confirm| ::
               && batch[confirm[j]].m.body.Some?
               && DecideConfirm(db, ItemOf(s, batch[confirm[j]].m).key, ItemOf(s, batch[confirm[j]].m).fp).ConfirmOk?
    requires c in CyclesOf(ItemsAt(s, batch, confirm))
    ensures DeadLetteredCycle(s, batch, fates, dlq, c) && exists k: nat :: Confirmer(s, w, batch, k, c)
  {
    hide InLetters, DecideConfirm, Run;
    var items := ItemsAt(s, batch, confirm);
    var j :| 0 <= j < |items| && c == CycleOf(items[j].key, items[j].fp);
    var k: nat := confirm[j];
    assert CycleAt(s, batch, k) == c;
    assert Confirmer(s, w, batch, k, c);
  }

  // ---------------------------------------------------------------- from fetched to decided

  lemma {:induction false} CallsPath(s: Settings, w: World, calls: seq<Call>)
    requires forall k | 0 <= k < |calls| :: !calls[k].DoConfirm?
    ensures LeadsTo(s, w, w.(calls := w.calls + calls))
    decreases |calls|
  {
    hide LeadsTo;
    if calls == [] {
      LeadsSelf(s, w);
      assert w.calls + calls == w.calls;
    } else {
      var n := |calls| - 1;
      CallsPath(s, w, calls[..n]);
      var mid := w.(calls := w.calls + calls[..n]);
      assert w.calls + calls == w.calls + calls[..n] + [calls[n]];
      LeadsNext(s, w, mid, Calls(calls[n]), w.(calls := w.calls + calls));
    }
  }

  /** A batch call is a run of Inbox calls that ends with the tables that the batch committed. */
  lemma InboxPath(s: Settings, w: World, items: seq<BatchItem>, limit: nat, handler: BatchHandler, now: Time)
    returns (w': World)
    ensures LeadsTo(s, w, w') && w' == w.(calls := w'.calls)
    ensures Inbox(w') == RunBatch(Inbox(w), items, limit, handler, now).0
  {
    var b := CommittedBatch(Inbox(w), items, limit, handler, now);
    var (after, report) := RunBatch(Inbox(w), items, limit, handler, now);
    hide RunBatch, Run, Batch.Result, LeadsTo;
    if report.Committed? {
      LeadIds(b);
      var calls := AttemptCalls(b, b.Leads());
      CallsPath(s, w, calls);
      w' := w.(calls := w.calls + calls);
      BatchContinuesRun(w.calls, b);
    } else {
      w' := w;
      LeadsSelf(s, w);
    }
  }

  ghost predicate AllHolding(w: World, batch: seq<Delivery>, from: nat) {
    forall k | from <= k < |batch| :: At(w, k) == Holding(batch[k].i)
  }

  lemma DecideIsNext(s: Settings, w: World, batch: seq<Delivery>, fates: seq<Fate>, k: nat) returns (w': World)
    requires InStream(w, batch) && k < |batch| && At(w, k) == Holding(batch[k].i) && AllOk(s, Inbox(w), batch, fates)
    ensures |fates| == |batch| && Next(s, w, Decides(k, fates[k]), w') && w' == w.(workers := w'.workers)
    ensures At(w', k) == NatsHandoff.Decided(batch[k].i, fates[k]) && forall x: nat | x != k :: At(w', x) == At(w, x)
  {
    assert FateOk(s, Inbox(w), batch[k].m, fates[k]);
    hide FateOk, Run;
    w' := w.(workers := w.workers[k := NatsHandoff.Decided(batch[k].i, fates[k])]);
  }

  lemma {:induction false} DecidePath(s: Settings, w: World, batch: seq<Delivery>, fates: seq<Fate>, n: nat) returns (w': World)
    requires n <= |batch| && InStream(w, batch) && AllHolding(w, batch, 0) && AllOk(s, Inbox(w), batch, fates)
    ensures LeadsTo(s, w, w') && w' == w.(workers := w'.workers) && AllHolding(w', batch, n) && |fates| == |batch|
    ensures forall k | 0 <= k < n :: At(w', k) == NatsHandoff.Decided(batch[k].i, fates[k])
    decreases n
  {
    hide LeadsTo, Next, FateOk, Run;
    if n == 0 {
      w' := w;
      LeadsSelf(s, w);
    } else {
      var mid := DecidePath(s, w, batch, fates, n - 1);
      w' := DecideIsNext(s, mid, batch, fates, n - 1);
      LeadsNext(s, w, mid, Decides(n - 1, fates[n - 1]), w');
    }
  }

  /** A batch that the consumer has fetched and decided is a run of the machine: the calls of its Inbox
      transaction, then one decision per delivery. */
  lemma DecisionIsRun(s: Settings, w: World, batch: seq<Delivery>, valid: seq<BatchItem>, handler: BatchHandler, now: Time,
                      fates: seq<Fate>) returns (w': World)
    requires InStream(w, batch) && AllHolding(w, batch, 0)
    requires AllOk(s, RunBatch(Inbox(w), valid, s.limit, handler, now).0, batch, fates)
    ensures LeadsTo(s, w, w') && InStream(w', batch) && AllDecided(w', batch, fates, 0)
    ensures Inbox(w') == RunBatch(Inbox(w), valid, s.limit, handler, now).0 && w'.dlq == w.dlq && w'.acked == w.acked
  {
    hide RunBatch, AllOk, LeadsTo, Run;
    var mid := InboxPath(s, w, valid, s.limit, handler, now);
    w' := DecidePath(s, mid, batch, fates, |batch|);
    LeadsOn(s, w, mid, w');
  }
}
