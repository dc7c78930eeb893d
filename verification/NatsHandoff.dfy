/** NATS hand-off safety: any number of workers, redelivery, lost broker replies and crashes at every
    point between the Inbox commit, the dead-letter publication and the acknowledgement. */
module NatsHandoff {
  import opened InboxTables
  import opened BatchRuntime
  import opened InboxAttempt
  import opened InboxBatch
  import opened InboxAcks
  import opened InboxRuns
  import opened InboxGuarantees
  import opened Deliveries
  import opened DeliveryBatches
  import opened Digests
  import InboxSqlite

  /** A stream message; body is what decoding yields, generation what its replay headers name. */
  datatype Msg = Msg(subject: string, mode: string, headers: HeaderMap, data: string,
                     body: Option<Envelope>, generation: string)

  datatype Settings = Settings(consumer: string, limit: nat)

  function IdentityOf(s: Settings, m: Envelope): Identity {
    Identity(s.consumer, m.item)
  }

  // ---------------------------------------------------------------- deciding

  function ItemOf(s: Settings, m: Msg): BatchItem
    requires m.body.Some?
  {
    BatchItem(Key(IdentityOf(s, m.body.value), m.generation), m.body.value.fp)
  }

  /** Only a durably completed identity may be acknowledged without a dead letter, and only a durably
      closed cycle is confirmed. */
  ghost predicate FateOk(s: Settings, db: Tables, m: Msg, f: Fate) {
    match f
    case Ack => m.body.Some? && CompletedAs(db, IdentityOf(s, m.body.value), m.body.value.fp)
    case Retry(_, _) => m.body.Some?
    case Dead(attempt, confirm) => attempt > 0 && (confirm ==> m.body.Some? && AwaitsHandoff(db, ItemOf(s, m)))
  }

  /** Messages that never reach the Inbox: undecodable, expired or scheduled for later. */
  function Entrance(m: Msg, delivered: nat, now: Time): Option<Fate> {
    if m.body.None? || !m.body.value.typed then Some(Dead(AtLeastOne(delivered), false))
    else if m.body.value.expiresAt.Some? && m.body.value.expiresAt.value <= now
    then Some(Dead(AtLeastOne(delivered), false))
    else if m.body.value.notBefore.Some? && m.body.value.notBefore.value > now
    then Some(Retry(0, m.body.value.notBefore.value - now))
    else None
  }

  /** A message enters the Inbox only at an instant at which it may be handled; one that comes too early is
      put off until exactly its own time, and a decodable one that is kept out for good has expired. */
  lemma EntranceWindow(m: Msg, delivered: nat, now: Time)
    requires m.body.Some? && m.body.value.typed
    ensures var e := m.body.value;
            match Entrance(m, delivered, now)
            case None => InWindow(e.notBefore, e.expiresAt, now)
            case Some(Retry(attempt, delay)) =>
              attempt == 0 && delay > 0 && e.notBefore == Some(now + delay) && InWindow(None, e.expiresAt, now)
            case Some(Dead(_, confirm)) =>
              !confirm && forall t: Time | now <= t :: !InWindow(e.notBefore, e.expiresAt, t)
            case Some(Ack) => false
  {
  }

  /** The dead-letter record counts the handler attempt, or else the broker's deliveries. */
  function RecordAttempt(f: Fate, attempt: nat, delivered: nat): Fate {
    if f.Dead? then f.(attempt := if attempt > 0 then attempt else AtLeastOne(delivered)) else f
  }

  /** One message through the Inbox; outcome is what the handler returns if it is called. */
  method ProcessMessage(s: Settings, store: InboxSqlite.Backend, m: Msg, delivered: nat, outcome: Outcome, now: Time)
    returns (fate: Fate)
    requires s.limit > 0
    modifies store
    ensures FateOk(s, store.db, m, fate)
    ensures if Entrance(m, delivered, now).Some? then
              fate == Entrance(m, delivered, now).value && store.db == old(store.db)
            else
              var item := ItemOf(s, m);
              var reply := ReplyTo(old(store.db), item.key, item.fp, s.limit, outcome);
              && store.db == Attempt(old(store.db), item.key, item.fp, s.limit, outcome, now)
              && fate == RecordAttempt(FateOfReply(reply, s.limit), reply.attempt, delivered)
  {
    hide Attempt, ReplyTo, Decide, AwaitsHandoff, FateOfReply;
    var early := Entrance(m, delivered, now);
    if early.Some? {
      return early.value;
    }
    var item := ItemOf(s, m);
    ReplyKept(store.db, item, s.limit, outcome, now);
    var reply, invoked := store.ProcessAttempt(item.key, item.fp, s.limit, outcome, now);
    fate := RecordAttempt(FateOfReply(reply, s.limit), reply.attempt, delivered);
  }

  // ---------------------------------------------------------------- dead letters

  /** The same message up to the case of header keys. */
  ghost predicate SameContent(a: Msg, b: Msg) {
    && a.subject == b.subject && a.mode == b.mode && a.data == b.data
    && (a.headers == b.headers
        || (Separate(a.headers, Folded) && Separate(b.headers, Folded) && CaseFolded(a.headers) == CaseFolded(b.headers)))
  }

  const DLQ_PREFIX := "gm-dlq-"
  const QUARANTINE_PREFIX := "gm-quarantine-"

  /** The deduplication identifier of a replayable message, with the hashed stream in place of its hash. */
  ghost predicate ReplayId(m: Msg, id: string) {
    && Separate(m.headers, Folded)
    && exists keys :: Listed(m.headers, keys, Folded)
                      && id == DLQ_PREFIX + ReplayBytes(m.subject, m.mode, LinesOf(m.headers, keys, Folded), m.data)
  }

  ghost predicate QuarantineId(m: Msg, id: string) {
    exists keys :: Listed(m.headers, keys, Exact)
                   && id == QUARANTINE_PREFIX + QuarantineBytes(m.subject, m.mode, LinesOf(m.headers, keys, Exact), m.data)
  }

  ghost predicate IdOf(m: Msg, id: string) {
    ReplayId(m, id) || QuarantineId(m, id)
  }

  lemma Unprefixed(p: string, a: string, b: string)
    requires p + a == p + b
    ensures a == b
  {
    assert a == (p + a)[|p|..] && b == (p + b)[|p|..];
  }

  lemma PrefixesDiffer(a: Msg, b: Msg, id: string)
    ensures !(ReplayId(a, id) && QuarantineId(b, id))
  {
    hide Listed, ReplayBytes, QuarantineBytes, LinesOf, Separate;
    assert ReplayId(a, id) ==> |id| > 3 && id[3] == 'd';
    assert QuarantineId(b, id) ==> |id| > 3 && id[3] == 'q';
  }

  lemma SameReplay(a: Msg, b: Msg, id: string)
    requires ReplayId(a, id) && ReplayId(b, id)
    ensures SameContent(a, b)
  {
    hide ReplayBytes, Listed, LinesOf, Separate, Folded, CaseFolded;
    var ka :| Listed(a.headers, ka, Folded)
              && id == DLQ_PREFIX + ReplayBytes(a.subject, a.mode, LinesOf(a.headers, ka, Folded), a.data);
    var kb :| Listed(b.headers, kb, Folded)
              && id == DLQ_PREFIX + ReplayBytes(b.subject, b.mode, LinesOf(b.headers, kb, Folded), b.data);
    Unprefixed(DLQ_PREFIX, ReplayBytes(a.subject, a.mode, LinesOf(a.headers, ka, Folded), a.data),
               ReplayBytes(b.subject, b.mode, LinesOf(b.headers, kb, Folded), b.data));
    ReplayIdentifies(a.subject, a.mode, a.headers, ka, a.data, b.subject, b.mode, b.headers, kb, b.data);
  }

  lemma SameQuarantine(a: Msg, b: Msg, id: string)
    requires QuarantineId(a, id) && QuarantineId(b, id)
    ensures SameContent(a, b)
  {
    hide QuarantineBytes, Listed, LinesOf;
    var ka :| Listed(a.headers, ka, Exact)
              && id == QUARANTINE_PREFIX + QuarantineBytes(a.subject, a.mode, LinesOf(a.headers, ka, Exact), a.data);
    var kb :| Listed(b.headers, kb, Exact)
              && id == QUARANTINE_PREFIX + QuarantineBytes(b.subject, b.mode, LinesOf(b.headers, kb, Exact), b.data);
    Unprefixed(QUARANTINE_PREFIX, QuarantineBytes(a.subject, a.mode, LinesOf(a.headers, ka, Exact), a.data),
               QuarantineBytes(b.subject, b.mode, LinesOf(b.headers, kb, Exact), b.data));
    QuarantineIdentifies(a.subject, a.mode, a.headers, ka, a.data, b.subject, b.mode, b.headers, kb, b.data);
  }

  /** Deduplication never mistakes one message for another: equal identifiers mean equal content. */
  lemma DedupIsSafe(a: Msg, b: Msg, id: string)
    requires IdOf(a, id) && IdOf(b, id)
    ensures SameContent(a, b)
  {
    hide ReplayId, QuarantineId, SameContent;
    PrefixesDiffer(a, b, id);
    PrefixesDiffer(b, a, id);
    if ReplayId(a, id) {
      SameReplay(a, b, id);
    } else {
      SameQuarantine(a, b, id);
    }
  }

  // ---------------------------------------------------------------- the dead-letter stream

  /** A broker reply: confirmed, or an error after which the operation may or may not have happened. */
  datatype Response = Confirmed | Failed(happened: bool)

  predicate Took(r: Response) {
    r.Confirmed? || r.happened
  }

  /** One publication: how it is answered, and whether the broker still remembers an earlier one under the
      same identifier; its memory is bounded in time. */
  datatype Publication = Publication(reply: Response, known: bool)

  /** Stored messages under their deduplication identifiers. */
  type Letters = seq<(string, Msg)>

  predicate Dups(dlq: Letters, id: string) {
    exists k | 0 <= k < |dlq| :: dlq[k].0 == id
  }

  function AfterPublish(dlq: Letters, id: string, m: Msg, p: Publication): Letters {
    if Took(p.reply) && !(p.known && Dups(dlq, id)) then dlq + [(id, m)] else dlq
  }

  /** Every message is stored under an identifier of its own content. */
  ghost predicate Genuine(dlq: Letters) {
    forall k | 0 <= k < |dlq| :: IdOf(dlq[k].1, dlq[k].0)
  }

  /** A message of this content is in the stream. */
  ghost predicate InLetters(dlq: Letters, m: Msg) {
    exists k | 0 <= k < |dlq| :: SameContent(dlq[k].1, m)
  }

  lemma LettersGrow(dlq: Letters, more: Letters, m: Msg)
    requires dlq <= more && InLetters(dlq, m)
    ensures InLetters(more, m)
  {
    hide SameContent;
    var k :| 0 <= k < |dlq| && SameContent(dlq[k].1, m);
    assert more[k] == dlq[k];
  }

  /** A publication that the broker took leaves the message in the stream, whether it was stored now or taken
      for a repetition: deduplication never drops a message for another one. */
  lemma PublishedIsThere(dlq: Letters, id: string, m: Msg, p: Publication)
    requires IdOf(m, id) && Genuine(dlq)
    ensures var after := AfterPublish(dlq, id, m, p);
            Genuine(after) && dlq <= after && (Took(p.reply) ==> InLetters(after, m))
  {
    var after := AfterPublish(dlq, id, m, p);
    if after != dlq {
      assert after[|dlq|] == (id, m);
      assert SameContent(m, m);
      hide SameContent, IdOf;
      forall k | 0 <= k < |after| ensures IdOf(after[k].1, after[k].0) {
        assert k < |dlq| ==> after[k] == dlq[k];
      }
    } else if Took(p.reply) {
      var k :| 0 <= k < |dlq| && dlq[k].0 == id;
      DedupIsSafe(dlq[k].1, m, id);
    }
  }

  /** What is durable at the broker. */
  class JetStream {
    var dlq: Letters
    var acked: set<nat>

    /** Publishes under a deduplication identifier. */
    method PublishMsg(id: string, m: Msg, p: Publication) returns (ok: bool)
      modifies this`dlq
      ensures dlq == AfterPublish(old(dlq), id, m, p)
      ensures ok <==> p.reply.Confirmed?
    {
      ok := p.reply.Confirmed?;
      if ok || p.reply.happened {
        if !p.known || !(exists k | 0 <= k < |dlq| :: dlq[k].0 == id) {
          dlq := dlq + [(id, m)];
        }
      }
    }

    method DoubleAck(i: nat, r: Response) returns (ok: bool)
      modifies this`acked
      ensures acked == old(acked) + if Took(r) then {i} else {}
      ensures ok <==> r.Confirmed?
    {
      ok := r.Confirmed?;
      if ok || r.happened {
        acked := acked + {i};
      }
    }
  }

  // ---------------------------------------------------------------- the hand-off itself

  /** The broker's state is the one that the world shows. */
  ghost predicate Shows(js: JetStream, w: World)
    reads js
  {
    js.dlq == w.dlq && js.acked == w.acked
  }

  /** The worker has decided to dead-letter the message at this position of the stream. */
  ghost predicate HoldsDead(w: World, who: nat, i: nat, m: Msg, id: string) {
    && At(w, who).Decided? && At(w, who).i == i && At(w, who).fate.Dead?
    && i < |w.stream| && w.stream[i] == m && IdOf(m, id)
  }

  /** Nothing changed but the broker's state and what one worker is doing. */
  ghost predicate OnlyWorker(w: World, w': World, who: nat) {
    w'.calls == w.calls && w'.stream == w.stream && forall x | x != who :: At(w', x) == At(w, x)
  }

  function Replies(ps: seq<Publication>): (r: seq<Response>)
    ensures |r| == |ps| && forall k | 0 <= k < |r| :: r[k] == ps[k].reply
  {
    seq(|ps|, k requires 0 <= k < |ps| => ps[k].reply)
  }

  /** Only copies of this message were added, and none if the broker remembered an earlier one. */
  ghost predicate AddsOnly(dlq: Letters, after: Letters, id: string, m: Msg, remembers: bool) {
    && dlq <= after && (forall x | |dlq| <= x < |after| :: after[x] == (id, m))
    && (remembers ==> |after| <= |dlq| + 1 && (Dups(dlq, id) ==> after == dlq))
  }

  lemma AddsNext(dlq: Letters, mid: Letters, id: string, m: Msg, p: Publication, remembers: bool)
    requires AddsOnly(dlq, mid, id, m, remembers) && (remembers ==> p.known)
    ensures AddsOnly(dlq, AfterPublish(mid, id, m, p), id, m, remembers)
  {
    if remembers && mid != dlq {
      assert mid[|dlq|] == (id, m);
      assert Dups(mid, id);
    }
  }

  lemma PublishIsNext(s: Settings, w: World, who: nat, i: nat, m: Msg, id: string, p: Publication) returns (w': World)
    requires HoldsDead(w, who, i, m, id)
    ensures Next(s, w, Publishes(who, id, p), w') && OnlyWorker(w, w', who)
    ensures w'.dlq == AfterPublish(w.dlq, id, m, p) && w'.acked == w.acked
    ensures At(w', who) == if p.reply.Confirmed? then Published(i, At(w, who).fate.confirm) else At(w, who)
  {
    hide IdOf, AfterPublish;
    w' := w.(dlq := AfterPublish(w.dlq, id, m, p),
             workers := if p.reply.Confirmed? then w.workers[who := Published(i, At(w, who).fate.confirm)] else w.workers);
  }

  lemma AckIsNext(s: Settings, w: World, who: nat, r: Response) returns (w': World)
    requires At(w, who).Published? || (At(w, who).Decided? && At(w, who).fate.Ack?)
    ensures Next(s, w, Acknowledges(who, r), w') && OnlyWorker(w, w', who) && w'.dlq == w.dlq
    ensures w'.acked == w.acked + if Took(r) then {At(w, who).i} else {}
    ensures At(w', who) == if !r.Confirmed? then At(w, who)
                           else if At(w, who).Published? && At(w, who).confirm then HandedOver(At(w, who).i) else Idle
  {
    var d := At(w, who);
    w' := w.(acked := w.acked + (if Took(r) then {d.i} else {}),
             workers := if !r.Confirmed? then w.workers
                        else w.workers[who := if d.Published? && d.confirm then HandedOver(d.i) else Idle]);
  }

  /** The first half of a hand-off: publishes until the broker confirms; the list of publications ends where
      the worker gives up. */
  method PublishLetter(ghost s: Settings, ghost w: World, ghost who: nat, js: JetStream, ghost i: nat, m: Msg, id: string,
                       publishes: seq<Publication>, ghost remembers: bool)
    returns (published: bool, ghost w': World)
    requires Shows(js, w) && HoldsDead(w, who, i, m, id) && Genuine(js.dlq)
    requires remembers ==> forall k | 0 <= k < |publishes| :: publishes[k].known
    modifies js`dlq
    ensures LeadsTo(s, w, w') && Shows(js, w') && OnlyWorker(w, w', who)
    ensures AddsOnly(old(js.dlq), js.dlq, id, m, remembers) && Genuine(js.dlq)
    ensures published <==> AnyConfirmed(Replies(publishes))
    ensures published ==> InLetters(js.dlq, m) && At(w', who) == Published(i, At(w, who).fate.confirm)
  {
    StartsEmpty(js.dlq, id, m, remembers, Replies(publishes));
    LeadsSelf(s, w);
    OnlySelf(w, who);
    hide IdOf, SameContent, Next, LeadsTo, InLetters, Genuine, AnyConfirmed, AddsOnly, AfterPublish, OnlyWorker, HoldsDead;
    published, w' := false, w;
    var n := 0;
    while n < |publishes| && !published
      invariant 0 <= n <= |publishes| && LeadsTo(s, w, w') && Shows(js, w') && OnlyWorker(w, w', who)
      invariant AddsOnly(old(js.dlq), js.dlq, id, m, remembers) && Genuine(js.dlq)
      invariant published <==> AnyConfirmed(Replies(publishes)[..n])
      invariant if published then InLetters(js.dlq, m) && At(w', who) == Published(i, At(w, who).fate.confirm)
                else At(w', who) == At(w, who)
      decreases |publishes| - n
    {
      AnyNext(Replies(publishes), n);
      AddsNext(old(js.dlq), js.dlq, id, m, publishes[n], remembers);
      HoldsStill(w, w', who, i, m, id);
      PublishedIsThere(js.dlq, id, m, publishes[n]);
      ghost var mid := PublishIsNext(s, w', who, i, m, id, publishes[n]);
      LeadsNext(s, w, w', Publishes(who, id, publishes[n]), mid);
      OnlyOn(w, w', mid, who);
      published := js.PublishMsg(id, m, publishes[n]);
      w' := mid;
      n := n + 1;
    }
    AnyPrefix(Replies(publishes), n);
  }

  lemma OnlySelf(w: World, who: nat)
    ensures OnlyWorker(w, w, who)
  {
  }

  lemma OnlyOn(w: World, mid: World, w': World, who: nat)
    requires OnlyWorker(w, mid, who) && OnlyWorker(mid, w', who)
    ensures OnlyWorker(w, w', who)
  {
  }

  lemma HoldsStill(w: World, w': World, who: nat, i: nat, m: Msg, id: string)
    requires HoldsDead(w, who, i, m, id) && OnlyWorker(w, w', who) && At(w', who) == At(w, who)
    ensures HoldsDead(w', who, i, m, id) && IdOf(m, id)
  {
    hide IdOf;
  }

  lemma StartsEmpty(dlq: Letters, id: string, m: Msg, remembers: bool, rs: seq<Response>)
    ensures AddsOnly(dlq, dlq, id, m, remembers) && !AnyConfirmed(rs[..0])
  {
  }

  /** Publishes the dead letter until the broker confirms it, and only then acknowledges the message until
      that is confirmed too. The lists of replies end where the worker gives up. Everything that happens is a
      run of the machine below. */
  method DeadLetterAndAcknowledge(ghost s: Settings, ghost w: World, ghost who: nat, js: JetStream, i: nat, m: Msg, id: string,
                                  publishes: seq<Publication>, acks: seq<Response>, ghost remembers: bool)
    returns (acknowledged: bool, ghost w': World)
    requires Shows(js, w) && HoldsDead(w, who, i, m, id) && Genuine(js.dlq)
    requires remembers ==> forall k | 0 <= k < |publishes| :: publishes[k].known
    modifies js
    ensures LeadsTo(s, w, w') && Shows(js, w') && OnlyWorker(w, w', who)
    ensures AddsOnly(old(js.dlq), js.dlq, id, m, remembers) && Genuine(js.dlq)
    ensures old(js.acked) <= js.acked <= old(js.acked) + {i}
    ensures js.acked != old(js.acked) ==> InLetters(js.dlq, m)
    ensures acknowledged <==> AnyConfirmed(Replies(publishes)) && AnyConfirmed(acks)
    ensures acknowledged ==> i in js.acked && InLetters(js.dlq, m)
    ensures acknowledged ==> At(w', who) == if At(w, who).fate.confirm then HandedOver(i) else Idle
  {
    acknowledged := false;
    var published;
    published, w' := PublishLetter(s, w, who, js, i, m, id, publishes, remembers);
    if !published {
      return;
    }
    hide IdOf, SameContent, Next, LeadsTo, InLetters, Genuine, AddsOnly, HoldsDead;
    ghost var sent := js.dlq;
    var n := 0;
    while n < |acks| && !acknowledged
      invariant 0 <= n <= |acks| && LeadsTo(s, w, w') && Shows(js, w') && OnlyWorker(w, w', who)
      invariant js.dlq == sent && old(js.acked) <= js.acked <= old(js.acked) + {i}
      invariant acknowledged <==> AnyConfirmed(acks[..n])
      invariant acknowledged ==> i in js.acked
      invariant At(w', who) == if !acknowledged then Published(i, At(w, who).fate.confirm)
                               else if At(w, who).fate.confirm then HandedOver(i) else Idle
      decreases |acks| - n
    {
      AnyNext(acks, n);
      ghost var mid := AckIsNext(s, w', who, acks[n]);
      LeadsNext(s, w, w', Acknowledges(who, acks[n]), mid);
      acknowledged := js.DoubleAck(i, acks[n]);
      w' := mid;
      n := n + 1;
    }
    AnyPrefix(acks, n);
  }

  predicate AnyConfirmed(rs: seq<Response>) {
    exists k | 0 <= k < |rs| :: rs[k].Confirmed?
  }

  lemma AnyNext(rs: seq<Response>, n: nat)
    requires n < |rs|
    ensures AnyConfirmed(rs[..n + 1]) <==> AnyConfirmed(rs[..n]) || rs[n].Confirmed?
  {
    assert rs[..n + 1] == rs[..n] + [rs[n]];
    if AnyConfirmed(rs[..n]) {
      var k :| 0 <= k < n && rs[..n][k].Confirmed?;
      assert rs[..n + 1][k].Confirmed?;
    }
    if rs[n].Confirmed? {
      assert rs[..n + 1][n].Confirmed?;
    }
  }

  lemma AnyPrefix(rs: seq<Response>, n: nat)
    requires n <= |rs| && (n == |rs| || AnyConfirmed(rs[..n]))
    ensures AnyConfirmed(rs) <==> AnyConfirmed(rs[..n])
  {
    assert rs[..|rs|] == rs;
    if AnyConfirmed(rs[..n]) {
      var k :| 0 <= k < n && rs[..n][k].Confirmed?;
      assert rs[k].Confirmed?;
    }
  }

  // ---------------------------------------------------------------- every interleaving

  /** What one worker is doing with the message it holds. */
  datatype Worker =
    | Idle
    | Holding(i: nat)
    | Decided(i: nat, fate: Fate)
    | Published(i: nat, confirm: bool)
    | HandedOver(i: nat)

  datatype World = World(calls: seq<Call>, stream: seq<Msg>, acked: set<nat>, dlq: Letters,
                         workers: map<nat, Worker>)

  datatype Action =
    | Arrives(m: Msg)
    | Calls(call: Call)
    | Delivers(who: nat, i: nat)
    | Decides(who: nat, fate: Fate)
    | Publishes(who: nat, id: string, p: Publication)
    | Acknowledges(who: nat, r: Response)
    | Confirms(who: nat, now: Time)
    | Gives(who: nat)

  ghost function Inbox(w: World): Tables {
    Run(EMPTY, w.calls).0
  }

  function At(w: World, who: nat): Worker {
    if who in w.workers then w.workers[who] else Idle
  }

  /** One step of one worker, of the Inbox or of a producer. Giving up covers negative acknowledgement,
      crash and shutdown alike: the message stays with the broker. */
  ghost predicate Next(s: Settings, w: World, a: Action, w': World) {
    match a
    case Arrives(m) => w' == w.(stream := w.stream + [m])
    case Calls(call) => !call.DoConfirm? && w' == w.(calls := w.calls + [call])
    case Delivers(who, i) =>
      && i < |w.stream| && i !in w.acked && At(w, who).Idle?
      && w' == w.(workers := w.workers[who := Holding(i)])
    case Decides(who, fate) =>
      && At(w, who).Holding? && At(w, who).i < |w.stream| && FateOk(s, Inbox(w), w.stream[At(w, who).i], fate)
      && w' == w.(workers := w.workers[who := Decided(At(w, who).i, fate)])
    case Publishes(who, id, p) =>
      var d := At(w, who);
      && d.Decided? && d.fate.Dead? && d.i < |w.stream| && IdOf(w.stream[d.i], id)
      && w' == w.(dlq := AfterPublish(w.dlq, id, w.stream[d.i], p),
                  workers := if p.reply.Confirmed? then w.workers[who := Published(d.i, d.fate.confirm)] else w.workers)
    case Acknowledges(who, r) =>
      var d := At(w, who);
      && (d.Published? || (d.Decided? && d.fate.Ack?))
      && w' == w.(acked := w.acked + (if Took(r) then {d.i} else {}),
                  workers := if !r.Confirmed? then w.workers
                             else w.workers[who := if d.Published? && d.confirm then HandedOver(d.i) else Idle])
    case Confirms(who, now) =>
      var d := At(w, who);
      && d.HandedOver? && d.i < |w.stream| && w.stream[d.i].body.Some?
      && var item := ItemOf(s, w.stream[d.i]);
         w' == w.(calls := w.calls + [DoConfirm(item.key, item.fp, now)], workers := w.workers[who := Idle])
    case Gives(who) => w' == w.(workers := w.workers[who := Idle])
  }

  ghost predicate Effected(s: Settings, w: World, m: Msg) {
    m.body.Some? && exists e | e in Run(EMPTY, w.calls).1 :: EffectOf(e, IdentityOf(s, m.body.value), m.body.value.fp)
  }

  ghost predicate DeadLettered(w: World, m: Msg) {
    InLetters(w.dlq, m)
  }

  ghost predicate Settled(s: Settings, w: World, i: nat) {
    i < |w.stream| && (Effected(s, w, w.stream[i]) || DeadLettered(w, w.stream[i]))
  }

  ghost predicate WorkerOk(s: Settings, w: World, d: Worker) {
    match d
    case Idle => true
    case Holding(i) => i < |w.stream|
    case Decided(i, fate) => i < |w.stream| && (fate.Ack? ==> Effected(s, w, w.stream[i]))
    case Published(i, _) => i < |w.stream| && DeadLettered(w, w.stream[i])
    case HandedOver(i) => i < |w.stream| && DeadLettered(w, w.stream[i])
  }

  /** Every acknowledged message was effected or dead-lettered before, and every worker that is about to
      acknowledge has such a reason in hand. */
  ghost predicate Safe(s: Settings, w: World) {
    && (forall i | i in w.acked :: Settled(s, w, i))
    && (forall who :: WorkerOk(s, w, At(w, who)))
    && Genuine(w.dlq)
  }

  ghost predicate Grows(w: World, w': World) {
    && w.stream <= w'.stream && w.dlq <= w'.dlq
    && forall e | e in Run(EMPTY, w.calls).1 :: e in Run(EMPTY, w'.calls).1
  }

  lemma GrowthKeeps(s: Settings, w: World, w': World, d: Worker, i: nat)
    requires Grows(w, w')
    ensures WorkerOk(s, w, d) ==> WorkerOk(s, w', d)
    ensures Settled(s, w, i) ==> Settled(s, w', i)
  {
    hide Run, SameContent;
    forall m ensures Effected(s, w, m) ==> Effected(s, w', m) {
    }
    forall m ensures DeadLettered(w, m) ==> DeadLettered(w', m) {
      if DeadLettered(w, m) {
        LettersGrow(w.dlq, w'.dlq, m);
      }
    }
    hide Effected, DeadLettered;
    assert forall j | 0 <= j < |w.stream| :: w.stream[j] == w'.stream[j];
  }

  /** A step that changes one worker at most, to a state it may be in, and acknowledges with reason. */
  lemma StepKeeps(s: Settings, w: World, w': World, who: nat, d: Worker, i: nat)
    requires Safe(s, w) && Grows(w, w')
    requires forall x :: At(w', x) == if x == who then d else At(w, x)
    requires WorkerOk(s, w', d) && w.acked <= w'.acked <= w.acked + {i} && (i in w'.acked ==> Settled(s, w', i))
    requires Genuine(w'.dlq)
    ensures Safe(s, w')
  {
    hide Grows, WorkerOk, Settled, Genuine, At;
    forall x ensures WorkerOk(s, w', At(w', x)) {
      GrowthKeeps(s, w, w', At(w, x), i);
    }
    forall j | j in w'.acked ensures Settled(s, w', j) {
      if j != i {
        GrowthKeeps(s, w, w', d, j);
      }
    }
  }

  /** What a publication leaves behind: the message in the dead-letter stream once the broker took it. */
  lemma PublishedParts(s: Settings, w: World, who: nat, id: string, p: Publication, w': World)
    requires Genuine(w.dlq) && Next(s, w, Publishes(who, id, p), w')
    ensures var d := At(w, who);
            && Grows(w, w') && w'.acked == w.acked && d.Decided? && d.fate.Dead? && d.i < |w.stream| && w'.stream == w.stream
            && At(w', who) == (if p.reply.Confirmed? then Published(d.i, d.fate.confirm) else d)
            && (forall x | x != who :: At(w', x) == At(w, x))
            && (p.reply.Confirmed? ==> DeadLettered(w', w.stream[d.i]))
            && Genuine(w'.dlq)
  {
    PublishedIsThere(w.dlq, id, w.stream[At(w, who).i], p);
    hide IdOf, Run, SameContent, FateOk, Genuine, InLetters, AfterPublish;
  }

  lemma PublishIsSafe(s: Settings, w: World, who: nat, id: string, p: Publication, w': World)
    requires Safe(s, w) && Next(s, w, Publishes(who, id, p), w')
    ensures Safe(s, w')
  {
    var d := At(w, who);
    assert WorkerOk(s, w, d);
    SafeParts(s, w);
    PublishedParts(s, w, who, id, p, w');
    GrowthKeeps(s, w, w', d, 0);
    hide Safe, Next, Grows, Genuine, Settled, DeadLettered, Effected, At;
    StepKeeps(s, w, w', who, At(w', who), |w.stream| + 1);
  }

  lemma SafeParts(s: Settings, w: World)
    requires Safe(s, w)
    ensures Genuine(w.dlq) && forall i | i in w.acked :: i < |w.stream|
  {
    hide WorkerOk, Genuine, Effected, DeadLettered;
    assert forall i | i in w.acked :: Settled(s, w, i);
  }

  lemma DecideIsSafe(s: Settings, w: World, who: nat, fate: Fate, w': World)
    requires Safe(s, w) && Next(s, w, Decides(who, fate), w')
    ensures Safe(s, w')
  {
    var i := At(w, who).i;
    if fate.Ack? {
      CompletedHasEffect(w.calls, IdentityOf(s, w.stream[i].body.value));
    }
    hide Genuine, Run, InLetters;
    assert Effected(s, w, w.stream[i]) ==> Effected(s, w', w'.stream[i]);
    assert Grows(w, w');
    hide Safe, Grows, DeadLettered, Effected;
    SafeParts(s, w);
    StepKeeps(s, w, w', who, Decided(i, fate), |w.stream| + 1);
  }

  lemma AcknowledgeIsSafe(s: Settings, w: World, who: nat, r: Response, w': World)
    requires Safe(s, w) && Next(s, w, Acknowledges(who, r), w')
    ensures Safe(s, w')
  {
    var d := At(w, who);
    hide Genuine, Run, InLetters;
    assert WorkerOk(s, w, d);
    assert Settled(s, w, d.i);
    assert Grows(w, w');
    GrowthKeeps(s, w, w', d, d.i);
    hide Safe, Grows, DeadLettered, Effected, Settled;
    StepKeeps(s, w, w', who, At(w', who), d.i);
  }

  lemma StepIsSafe(s: Settings, w: World, a: Action, w': World)
    requires Safe(s, w) && Next(s, w, a, w')
    ensures Safe(s, w')
  {
    match a
    case Publishes(who, id, p) =>
      hide Safe, Next;
      PublishIsSafe(s, w, who, id, p, w');
    case Decides(who, fate) =>
      hide Safe, Next;
      DecideIsSafe(s, w, who, fate, w');
    case Acknowledges(who, r) =>
      hide Safe, Next;
      AcknowledgeIsSafe(s, w, who, r, w');
    case _ =>
      hide Safe;
      QuietIsSafe(s, w, a, w');
  }

  lemma QuietIsSafe(s: Settings, w: World, a: Action, w': World)
    requires Safe(s, w) && Next(s, w, a, w') && !a.Publishes? && !a.Decides? && !a.Acknowledges?
    ensures Safe(s, w')
  {
    hide Safe, FateOk, IdOf, AfterPublish, ItemOf, Run;
    match a
    case Calls(call) =>
      RunGrows(w.calls, call);
      QuietStep(s, w, w', 0, At(w, 0));
    case Confirms(who, now) =>
      ConfirmIsSafe(s, w, who, now, w');
    case Arrives(m) =>
      QuietStep(s, w, w', 0, At(w, 0));
    case Delivers(who, i) =>
      QuietStep(s, w, w', who, Holding(i));
    case Gives(who) =>
      QuietStep(s, w, w', who, Idle);
  }

  lemma ConfirmIsSafe(s: Settings, w: World, who: nat, now: Time, w': World)
    requires Safe(s, w) && Next(s, w, Confirms(who, now), w')
    ensures Safe(s, w')
  {
    hide Safe, FateOk, IdOf, AfterPublish, ItemOf, Run;
    var item := ItemOf(s, w.stream[At(w, who).i]);
    RunGrows(w.calls, DoConfirm(item.key, item.fp, now));
    QuietStep(s, w, w', who, Idle);
  }

  /** Steps that neither publish nor acknowledge. */
  lemma QuietStep(s: Settings, w: World, w': World, who: nat, d: Worker)
    requires Safe(s, w) && Grows(w, w') && w'.dlq == w.dlq && w'.acked == w.acked
    requires forall x :: At(w', x) == if x == who then d else At(w, x)
    requires d == At(w, who) || d.Idle? || (d.Holding? && d.i < |w'.stream|)
    ensures Safe(s, w')
  {
    hide Genuine, Run, Grows, Settled, Effected, DeadLettered;
    assert WorkerOk(s, w, At(w, who));
    GrowthKeeps(s, w, w', At(w, who), 0);
    SafeParts(s, w);
    hide Safe, At;
    StepKeeps(s, w, w', who, d, |w.stream| + 1);
  }

  const START := World([], [], {}, [], map[])

  /** Worlds that follow each other by the given actions. */
  ghost predicate Path(s: Settings, ws: seq<World>, actions: seq<Action>) {
    |ws| == |actions| + 1 && forall k | 0 <= k < |actions| :: Next(s, ws[k], actions[k], ws[k + 1])
  }

  ghost predicate LeadsTo(s: Settings, w: World, w': World) {
    exists ws, actions :: Path(s, ws, actions) && ws[0] == w && ws[|ws| - 1] == w'
  }

  lemma LeadsSelf(s: Settings, w: World)
    ensures LeadsTo(s, w, w)
  {
    assert Path(s, [w], []);
  }

  lemma LeadsNext(s: Settings, w: World, mid: World, a: Action, w': World)
    requires LeadsTo(s, w, mid) && Next(s, mid, a, w')
    ensures LeadsTo(s, w, w')
  {
    hide Next;
    var ws, actions :| Path(s, ws, actions) && ws[0] == w && ws[|ws| - 1] == mid;
    var all, acts := ws + [w'], actions + [a];
    forall k | 0 <= k < |acts| ensures Next(s, all[k], acts[k], all[k + 1]) {
      if k < |actions| {
        assert Next(s, ws[k], actions[k], ws[k + 1]);
      }
    }
    assert Path(s, all, acts);
  }

  lemma LeadsOn(s: Settings, u: World, v: World, w: World)
    requires LeadsTo(s, u, v) && LeadsTo(s, v, w)
    ensures LeadsTo(s, u, w)
  {
    hide Next;
    var xs, a :| Path(s, xs, a) && xs[0] == u && xs[|xs| - 1] == v;
    var ys, b :| Path(s, ys, b) && ys[0] == v && ys[|ys| - 1] == w;
    var all, acts := xs + ys[1..], a + b;
    forall k | 0 <= k < |acts| ensures Next(s, all[k], acts[k], all[k + 1]) {
      if k < |a| {
        assert Next(s, xs[k], a[k], xs[k + 1]);
      } else {
        var j := k - |a|;
        assert Next(s, ys[j], b[j], ys[j + 1]);
        assert all[k] == ys[j] && all[k + 1] == ys[j + 1];
      }
    }
    assert Path(s, all, acts);
  }

  lemma {:induction false} PathIsSafe(s: Settings, ws: seq<World>, actions: seq<Action>, k: nat)
    requires Path(s, ws, actions) && k < |ws| && Safe(s, ws[0])
    ensures Safe(s, ws[k])
  {
    if k > 0 {
      hide Safe, Next;
      PathIsSafe(s, ws, actions, k - 1);
      assert Next(s, ws[k - 1], actions[k - 1], ws[k - 1 + 1]);
      StepIsSafe(s, ws[k - 1], actions[k - 1], ws[k]);
    }
  }

  /** Whatever a run of steps leads to is as safe as where it began. */
  lemma LeadsSafe(s: Settings, w: World, w': World)
    requires LeadsTo(s, w, w') && Safe(s, w)
    ensures Safe(s, w')
  {
    hide Safe, Next;
    var ws, actions :| Path(s, ws, actions) && ws[0] == w && ws[|ws| - 1] == w';
    PathIsSafe(s, ws, actions, |ws| - 1);
  }

  ghost predicate Reachable(s: Settings, ws: seq<World>, actions: seq<Action>) {
    Path(s, ws, actions) && ws[0] == START
  }

  /** After every step of every run, also in the middle of a hand-off, an acknowledged message was
      effected or is in the dead-letter stream. */
  lemma EveryRunIsSafe(s: Settings, ws: seq<World>, actions: seq<Action>, k: nat)
    requires Reachable(s, ws, actions) && k < |ws|
    ensures Safe(s, ws[k])
  {
    assert Safe(s, START);
    hide Safe, Path;
    PathIsSafe(s, ws, actions, k);
  }

  // ---------------------------------------------------------------- closed cycles

  /** A message of this cycle is in the dead-letter stream. */
  ghost predicate Handed(s: Settings, w: World, c: Cycle) {
    exists i | 0 <= i < |w.stream| ::
      && w.stream[i].body.Some? && DeadLettered(w, w.stream[i])
      && c == CycleOf(ItemOf(s, w.stream[i]).key, ItemOf(s, w.stream[i]).fp)
  }

  /** Whatever was confirmed is in the dead-letter stream. */
  ghost predicate Backed(s: Settings, w: World) {
    forall k | 0 <= k < |w.calls| && w.calls[k].DoConfirm? :: Handed(s, w, CycleOf(w.calls[k].key, w.calls[k].fp))
  }

  lemma StaysHanded(s: Settings, w: World, w': World, c: Cycle)
    requires w.stream <= w'.stream && w.dlq <= w'.dlq && Handed(s, w, c)
    ensures Handed(s, w', c)
  {
    hide InLetters, ItemOf;
    var i :| 0 <= i < |w.stream| && w.stream[i].body.Some? && DeadLettered(w, w.stream[i])
             && c == CycleOf(ItemOf(s, w.stream[i]).key, ItemOf(s, w.stream[i]).fp);
    assert w'.stream[i] == w.stream[i];
    LettersGrow(w.dlq, w'.dlq, w.stream[i]);
  }

  /** Messages and dead letters stay, calls are appended one by one, and a confirmation names a message
      that was dead-lettered. */
  lemma StepParts(s: Settings, w: World, a: Action, w': World) returns (more: seq<Call>)
    requires Safe(s, w) && Next(s, w, a, w')
    ensures w.stream <= w'.stream && w.dlq <= w'.dlq && w'.calls == w.calls + more && |more| <= 1
    ensures forall call | call in more && call.DoConfirm? :: Handed(s, w, CycleOf(call.key, call.fp))
  {
    hide IdOf, InLetters, Genuine, Run, FateOk, Effected;
    match a
    case Calls(call) => more := [call];
    case Confirms(who, now) =>
      assert WorkerOk(s, w, At(w, who));
      var item := ItemOf(s, w.stream[At(w, who).i]);
      more := [DoConfirm(item.key, item.fp, now)];
    case _ => more := [];
  }

  lemma StepIsBacked(s: Settings, w: World, a: Action, w': World)
    requires Safe(s, w) && Backed(s, w) && Next(s, w, a, w')
    ensures Backed(s, w')
  {
    var more := StepParts(s, w, a, w');
    hide Next, Safe, Handed;
    forall k | 0 <= k < |w'.calls| && w'.calls[k].DoConfirm?
      ensures Handed(s, w', CycleOf(w'.calls[k].key, w'.calls[k].fp))
    {
      assert k < |w.calls| ==> w'.calls[k] == w.calls[k];
      StaysHanded(s, w, w', CycleOf(w'.calls[k].key, w'.calls[k].fp));
    }
  }

  lemma {:induction false} EveryRunIsBacked(s: Settings, ws: seq<World>, actions: seq<Action>, k: nat)
    requires Reachable(s, ws, actions) && k < |ws|
    ensures Backed(s, ws[k])
  {
    if k > 0 {
      hide Safe, Backed, Next;
      EveryRunIsSafe(s, ws, actions, k - 1);
      EveryRunIsBacked(s, ws, actions, k - 1);
      assert Next(s, ws[k - 1], actions[k - 1], ws[k - 1 + 1]);
      StepIsBacked(s, ws[k - 1], actions[k - 1], ws[k]);
    }
  }

  /** In every reachable world a closed cycle still has its terminal row or its message is in the
      dead-letter stream: retention never discards a closed message that was not handed over. */
  lemma ClosedIsProtected(s: Settings, ws: seq<World>, actions: seq<Action>, k: nat, i: nat, c: Cycle)
    requires Reachable(s, ws, actions) && k < |ws|
    requires var log := Run(EMPTY, ws[k].calls).1; i < |log| && log[i] == Recorded(c) && LeftAlone(log, i, c)
    ensures c in Inbox(ws[k]).terminal || Handed(s, ws[k], c)
  {
    EveryRunIsBacked(s, ws, actions, k);
    var w := ws[k];
    ClosedOrConfirmed(w.calls, i, c);
    hide Run, LeftAlone, Handed, Reachable;
    if c !in Inbox(w).terminal {
      var j :| 0 <= j < |w.calls| && ConfirmsCycle(w.calls[j], c);
    }
  }
}
