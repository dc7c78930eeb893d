/** Planning and applying JetStream streams and durable consumers: subjects are only added, limits only
    raised, consumers never change what they deliver, and a plan with a conflict changes nothing. */
module NatsTopology {
  import opened InboxTables
  import opened Segments
  import opened SubjectPatterns

  /** The settings this topology manages. */
  datatype Spec = Spec(description: string, subjects: seq<string>, retention: nat, storage: nat, replicas: nat,
                       maxMessages: int, maxBytes: int, maxAge: nat, maxMsgSize: int, duplicates: nat)

  /** A stream at the broker, with the settings it manages and those it leaves alone. */
  datatype Stream = Stream(managed: Spec, unmanaged: nat)

  datatype Action = Create | Update | Noop | Conflict

  predicate DecreasesLimit(current: int, desired: int) {
    if current < 0 then desired >= 0 else desired >= 0 && desired < current
  }

  predicate DecreasesDuration(current: nat, desired: nat) {
    if current == 0 then desired > 0 else desired > 0 && desired < current
  }

  /** Negative limits and zero durations stand above all others. */
  predicate LimitAtMost(a: int, b: int) {
    b < 0 || (a >= 0 && a <= b)
  }

  predicate DurationAtMost(a: nat, b: nat) {
    b == 0 || (a != 0 && a <= b)
  }

  lemma LimitsOnlyRise(a: int, b: int, x: nat, y: nat)
    ensures DecreasesLimit(a, b) <==> !LimitAtMost(a, b)
    ensures DecreasesDuration(x, y) <==> !DurationAtMost(x, y)
  {
  }

  predicate Superset(desired: seq<string>, current: seq<string>) {
    forall i | 0 <= i < |current| :: CoveredBySome(desired, current[i])
  }

  method CompareStream(current: Stream, desired: Spec) returns (a: Action)
    ensures a == Compared(current, desired)
  {
    var c := current.managed;
    if c.retention != desired.retention || c.storage != desired.storage || c.replicas != desired.replicas {
      return Conflict;
    }
    var kept := IsSubjectSuperset(desired.subjects, c.subjects);
    if !kept {
      return Conflict;
    }
    if DecreasesLimit(c.maxMessages, desired.maxMessages) || DecreasesLimit(c.maxBytes, desired.maxBytes)
       || DecreasesDuration(c.maxAge, desired.maxAge) || DecreasesLimit(c.maxMsgSize, desired.maxMsgSize)
       || desired.duplicates < c.duplicates {
      return Conflict;
    }
    if c.description != desired.description || multiset(c.subjects) != multiset(desired.subjects)
       || c.maxMessages != desired.maxMessages || c.maxBytes != desired.maxBytes || c.maxAge != desired.maxAge
       || c.maxMsgSize != desired.maxMsgSize || c.duplicates != desired.duplicates {
      return Update;
    }
    return Noop;
  }

  /** Nothing that is stored or routed today may get lost. */
  predicate Compatible(c: Spec, d: Spec) {
    && c.retention == d.retention && c.storage == d.storage && c.replicas == d.replicas
    && Superset(d.subjects, c.subjects)
    && LimitAtMost(c.maxMessages, d.maxMessages) && LimitAtMost(c.maxBytes, d.maxBytes)
    && DurationAtMost(c.maxAge, d.maxAge) && LimitAtMost(c.maxMsgSize, d.maxMsgSize)
    && c.duplicates <= d.duplicates
  }

  /** The same settings, subjects in any order. */
  predicate Matching(c: Spec, d: Spec) {
    multiset(c.subjects) == multiset(d.subjects) && c == d.(subjects := c.subjects)
  }

  function Compared(current: Stream, desired: Spec): Action {
    if !Compatible(current.managed, desired) then Conflict
    else if Matching(current.managed, desired) then Noop
    else Update
  }

  function Planned(current: Option<Stream>, desired: Spec): Action {
    if current.None? then Create else Compared(current.value, desired)
  }

  function Applied(current: Option<Stream>, desired: Spec, defaults: nat): Option<Stream> {
    match Planned(current, desired)
    case Create => Some(Stream(desired, defaults))
    case Update => Some(Stream(desired, if current.Some? then current.value.unmanaged else defaults))
    case _ => current
  }

  // ---------------------------------------------------------------- convergence and safety

  predicate ValidSubjects(d: Spec) {
    forall i | 0 <= i < |d.subjects| :: ValidPattern(Split(d.subjects[i]))
  }

  lemma {:induction false} CoversItself(p: seq<Token>)
    requires Tidy(p)
    ensures Covers(p, p)
  {
    if p != [] && p[0] != TAIL {
      CoversItself(p[1..]);
    }
  }

  lemma CompatibleWithItself(d: Spec)
    requires ValidSubjects(d)
    ensures Compatible(d, d)
  {
    hide Covers, Split;
    forall i | 0 <= i < |d.subjects| ensures CoveredBySome(d.subjects, d.subjects[i]) {
      CoversItself(Split(d.subjects[i]));
    }
  }

  /** Planning again after an apply finds nothing left to do, and settings outside the topology stay. */
  lemma StreamConverges(current: Option<Stream>, desired: Spec, defaults: nat)
    requires ValidSubjects(desired) && !Planned(current, desired).Conflict?
    ensures Planned(Applied(current, desired, defaults), desired).Noop?
    ensures current.Some? ==> Applied(current, desired, defaults).value.unmanaged == current.value.unmanaged
  {
    CompatibleWithItself(desired);
    hide Compatible;
  }

  /** A change that is let through keeps every subject that was routed to the stream. */
  lemma NoSubjectLost(current: Stream, desired: Spec, subject: seq<Token>, i: nat)
    requires !Compared(current, desired).Conflict? && i < |current.managed.subjects|
    requires Concrete(subject) && Matches(Split(current.managed.subjects[i]), subject)
    ensures exists j | 0 <= j < |desired.subjects| :: Matches(Split(desired.subjects[j]), subject)
  {
    hide Covers, Split;
    assert CoveredBySome(desired.subjects, current.managed.subjects[i]);
    var j :| 0 <= j < |desired.subjects| && Covers(Split(desired.subjects[j]), Split(current.managed.subjects[i]));
    CoversIsSound(Split(desired.subjects[j]), Split(current.managed.subjects[i]), subject);
  }

  // ---------------------------------------------------------------- consumers

  datatype ConsumerSpec = ConsumerSpec(stream: string, name: string, description: string, filter: string, ackWait: int,
                                       maxDeliver: int, maxAckPending: int, replicas: int, memory: bool)

  /** A consumer at the broker: its settings, whether it acknowledges explicitly, whether the delivery options
      that no declaration mentions are all at their defaults, and the rest of its configuration. */
  datatype Consumer = Consumer(settings: ConsumerSpec, durable: string, explicitAck: bool, plainDelivery: bool,
                               unmanaged: nat)

  method CompareConsumer(current: Consumer, desired: ConsumerSpec) returns (a: Action)
    ensures a == ComparedConsumer(current, desired)
  {
    var c := current.settings;
    if current.durable != desired.name || c.name != desired.name || !current.explicitAck || c.filter != desired.filter
       || c.ackWait != desired.ackWait || c.maxDeliver != desired.maxDeliver || c.maxAckPending != desired.maxAckPending
       || c.replicas != desired.replicas || c.memory != desired.memory || !current.plainDelivery {
      return Conflict;
    }
    if c.description != desired.description {
      return Update;
    }
    return Noop;
  }

  /** What is delivered and how it is acknowledged agrees with the declaration; the description is free. */
  predicate SameContract(c: Consumer, d: ConsumerSpec) {
    && c.settings == d.(stream := c.settings.stream, description := c.settings.description)
    && c.durable == d.name && c.explicitAck && c.plainDelivery
  }

  function ComparedConsumer(current: Consumer, desired: ConsumerSpec): Action {
    if !SameContract(current, desired) then Conflict
    else if current.settings.description == desired.description then Noop
    else Update
  }

  // ---------------------------------------------------------------- the whole topology

  datatype Topology = Topology(version: string, names: seq<string>, specs: seq<Spec>, consumers: seq<ConsumerSpec>)

  const VERSION := "1.0"
  const MAX_REPLICAS := 5
  const MAX_RESOURCE := 255

  /** A character of a resource name stands for one byte. */
  predicate ValidResource(name: string) {
    && 0 < |name| <= MAX_RESOURCE
    && forall k | 0 <= k < |name| :: name[k] !in {' ', '\t', '\r', '\n', '\U{0c}', '.', '*', '>', '\\', '/'}
  }

  predicate ValidSpec(d: Spec) {
    && d.subjects != [] && 1 <= d.replicas <= MAX_REPLICAS && (d.maxMessages == -1 || d.maxMessages > 0)
    && (d.maxBytes == -1 || d.maxBytes > 0) && d.maxMsgSize > 0 && d.duplicates > 0 && ValidSubjects(d)
  }

  function IndexOf(names: seq<string>, name: string): (r: Option<nat>)
    ensures r.Some? ==> r.value < |names| && names[r.value] == name
    ensures r.None? <==> name !in names
  {
    if names == [] then None
    else if names[|names| - 1] == name then Some(|names| - 1)
    else IndexOf(names[..|names| - 1], name)
  }

  predicate ValidConsumer(t: Topology, d: ConsumerSpec)
    requires |t.names| == |t.specs|
  {
    && ValidResource(d.stream) && ValidResource(d.name) && d.ackWait > 0 && (d.maxDeliver == -1 || d.maxDeliver > 0)
    && d.maxAckPending > 0 && 0 <= d.replicas <= MAX_REPLICAS && ValidPattern(Split(d.filter))
    && var at := IndexOf(t.names, d.stream);
       at.Some? ==> d.replicas <= t.specs[at.value].replicas && CoveredBySome(t.specs[at.value].subjects, d.filter)
  }

  /** What is checked before the broker is asked anything. */
  predicate ValidTopology(t: Topology) {
    && t.version == VERSION && |t.names| == |t.specs|
    && (forall i | 0 <= i < |t.names| :: ValidResource(t.names[i]) && ValidSpec(t.specs[i]))
    && (forall i, j | 0 <= i < j < |t.names| :: t.names[i] != t.names[j])
    && (forall i | 0 <= i < |t.consumers| :: ValidConsumer(t, t.consumers[i]))
    && (forall i, j | 0 <= i < j < |t.consumers| :: KeyOf(t.consumers[i]) != KeyOf(t.consumers[j]))
  }

  function KeyOf(d: ConsumerSpec): (string, string) {
    (d.stream, d.name)
  }

  type Streams = map<string, Stream>
  type Consumers = map<(string, string), Consumer>

  /** The subjects that a consumer's filter is held against: those its stream is declared with, or else those
      the broker reports. */
  function SubjectsFor(t: Topology, streams: Streams, name: string): Option<seq<string>>
    requires |t.names| == |t.specs|
  {
    var at := IndexOf(t.names, name);
    if at.Some? then Some(t.specs[at.value].subjects)
    else if name in streams then Some(streams[name].managed.subjects)
    else None
  }

  function PlannedConsumer(t: Topology, streams: Streams, consumers: Consumers, d: ConsumerSpec): Action
    requires |t.names| == |t.specs|
  {
    var subjects := SubjectsFor(t, streams, d.stream);
    if subjects.None? || !CoveredBySome(subjects.value, d.filter) then Conflict
    else if KeyOf(d) !in consumers then Create
    else ComparedConsumer(consumers[KeyOf(d)], d)
  }

  function AppliedConsumer(current: Option<Consumer>, d: ConsumerSpec, a: Action, defaults: nat): Option<Consumer> {
    match a
    case Create => Some(Consumer(d, d.name, true, true, defaults))
    case Update =>
      if current.None? then None
      else Some(current.value.(settings := d, durable := d.name, explicitAck := true))
    case _ => current
  }

  /** Broker contract: a consumer belongs to an existing stream. */
  ghost predicate Housed(streams: Streams, consumers: Consumers) {
    forall key | key in consumers :: key.0 in streams
  }

  /** The whole plan: one action per declared stream, one per declared consumer. */
  ghost predicate IsPlan(t: Topology, streams: Streams, consumers: Consumers, forStreams: seq<Action>, forConsumers: seq<Action>)
    requires |t.names| == |t.specs|
  {
    && |forStreams| == |t.specs| && |forConsumers| == |t.consumers|
    && (forall i | 0 <= i < |t.specs| :: forStreams[i] == Planned(Row(streams, t.names[i]), t.specs[i]))
    && (forall i | 0 <= i < |t.consumers| :: forConsumers[i] == PlannedConsumer(t, streams, consumers, t.consumers[i]))
  }

  predicate NoConflict(plan: seq<Action>) {
    forall i | 0 <= i < |plan| :: !plan[i].Conflict?
  }

  /** The broker after every planned change was carried out, and nothing else. */
  ghost predicate IsApplied(t: Topology, streams: Streams, consumers: Consumers, streams': Streams, consumers': Consumers,
                            defaults: nat)
    requires |t.names| == |t.specs|
  {
    && (forall i | 0 <= i < |t.specs| ::
          Row(streams', t.names[i]) == Applied(Row(streams, t.names[i]), t.specs[i], defaults))
    && (forall n | n !in t.names :: Row(streams', n) == Row(streams, n))
    && (forall i | 0 <= i < |t.consumers| ::
          var d := t.consumers[i];
          Row(consumers', KeyOf(d))
          == AppliedConsumer(Row(consumers, KeyOf(d)), d, PlannedConsumer(t, streams, consumers, d), defaults))
    && (forall key | forall i | 0 <= i < |t.consumers| :: KeyOf(t.consumers[i]) != key ::
          Row(consumers', key) == Row(consumers, key))
  }

  class Broker {
    var streams: Streams
    var consumers: Consumers

    method PlanStreams(t: Topology) returns (plan: seq<Action>)
      requires |t.names| == |t.specs|
      ensures |plan| == |t.specs| && forall i | 0 <= i < |t.specs| :: plan[i] == Planned(Row(streams, t.names[i]), t.specs[i])
    {
      hide Compared;
      plan := [];
      for i := 0 to |t.specs|
        invariant |plan| == i && forall j | 0 <= j < i :: plan[j] == Planned(Row(streams, t.names[j]), t.specs[j])
      {
        var action := Create;
        if t.names[i] in streams {
          action := CompareStream(streams[t.names[i]], t.specs[i]);
        }
        plan := plan + [action];
      }
    }

    /** A stream that the same plan creates has no consumers yet, so the broker is not asked for them. */
    method PlanConsumers(t: Topology) returns (plan: seq<Action>)
      requires |t.names| == |t.specs| && Housed(streams, consumers)
      ensures |plan| == |t.consumers|
      ensures forall i | 0 <= i < |t.consumers| :: plan[i] == PlannedConsumer(t, streams, consumers, t.consumers[i])
    {
      hide ComparedConsumer, CoveredBySome;
      plan := [];
      for i := 0 to |t.consumers|
        invariant |plan| == i
        invariant forall j | 0 <= j < i :: plan[j] == PlannedConsumer(t, streams, consumers, t.consumers[j])
      {
        var d := t.consumers[i];
        var subjects := SubjectsFor(t, streams, d.stream);
        var action := Conflict;
        if subjects.Some? {
          var covered := StreamSubjectsCoverFilter(subjects.value, d.filter);
          if covered {
            if d.stream !in streams || KeyOf(d) !in consumers {
              action := Create;
            } else {
              action := CompareConsumer(consumers[KeyOf(d)], d);
            }
          }
        }
        plan := plan + [action];
      }
    }

    method ApplyStreams(t: Topology, plan: seq<Action>, defaults: nat)
      requires |t.names| == |t.specs| == |plan| && forall i, j | 0 <= i < j < |t.names| :: t.names[i] != t.names[j]
      requires forall i | 0 <= i < |plan| :: plan[i] == Planned(Row(streams, t.names[i]), t.specs[i])
      modifies this`streams
      ensures forall i | 0 <= i < |t.specs| ::
                Row(streams, t.names[i]) == Applied(Row(old(streams), t.names[i]), t.specs[i], defaults)
      ensures forall n | n !in t.names :: Row(streams, n) == Row(old(streams), n)
    {
      hide Compared;
      ghost var before := streams;
      for i := 0 to |t.specs|
        invariant forall j | 0 <= j < i :: Row(streams, t.names[j]) == Applied(Row(before, t.names[j]), t.specs[j], defaults)
        invariant forall n | n !in t.names[..i] :: Row(streams, n) == Row(before, n)
      {
        assert t.names[..i + 1] == t.names[..i] + [t.names[i]];
        assert t.names[i] !in t.names[..i];
        match plan[i]
        case Create => streams := streams[t.names[i] := Stream(t.specs[i], defaults)];
        case Update => streams := streams[t.names[i] := Stream(t.specs[i], streams[t.names[i]].unmanaged)];
        case _ =>
      }
      assert t.names[..|t.specs|] == t.names;
    }

    method ApplyConsumers(t: Topology, plan: seq<Action>, defaults: nat)
      requires |plan| == |t.consumers|
      requires forall i, j | 0 <= i < j < |plan| :: KeyOf(t.consumers[i]) != KeyOf(t.consumers[j])
      requires forall i | 0 <= i < |plan| && plan[i].Update? :: KeyOf(t.consumers[i]) in consumers
      modifies this`consumers
      ensures forall i | 0 <= i < |plan| ::
                Row(consumers, KeyOf(t.consumers[i]))
                == AppliedConsumer(Row(old(consumers), KeyOf(t.consumers[i])), t.consumers[i], plan[i], defaults)
      ensures forall key | forall i | 0 <= i < |plan| :: KeyOf(t.consumers[i]) != key ::
                Row(consumers, key) == Row(old(consumers), key)
    {
      ghost var before := consumers;
      for i := 0 to |plan|
        invariant forall j | 0 <= j < i ::
                    Row(consumers, KeyOf(t.consumers[j]))
                    == AppliedConsumer(Row(before, KeyOf(t.consumers[j])), t.consumers[j], plan[j], defaults)
        invariant forall key | forall j | 0 <= j < i :: KeyOf(t.consumers[j]) != key :: Row(consumers, key) == Row(before, key)
      {
        var d := t.consumers[i];
        assert forall j | 0 <= j < i :: KeyOf(t.consumers[j]) != KeyOf(d);
        assert Row(consumers, KeyOf(d)) == Row(before, KeyOf(d));
        match plan[i]
        case Create => consumers := consumers[KeyOf(d) := Consumer(d, d.name, true, true, defaults)];
        case Update =>
          var current := consumers[KeyOf(d)];
          consumers := consumers[KeyOf(d) := current.(settings := d, durable := d.name, explicitAck := true)];
        case _ =>
      }
    }

    /** Plans every stream and every consumer first; a conflict anywhere, of a stream or of a consumer, refuses
        the whole topology before any change. Streams are changed before consumers. */
    method ApplyTopology(t: Topology, defaults: nat) returns (ok: bool, forStreams: seq<Action>, forConsumers: seq<Action>)
      requires Housed(streams, consumers)
      modifies this
      ensures ok ==> ValidTopology(t)
      ensures ValidTopology(t) ==>
                && IsPlan(t, old(streams), old(consumers), forStreams, forConsumers)
                && (ok <==> NoConflict(forStreams) && NoConflict(forConsumers))
      ensures !ok ==> streams == old(streams) && consumers == old(consumers)
      ensures ok ==> IsApplied(t, old(streams), old(consumers), streams, consumers, defaults)
      ensures ok ==> Settled(t, streams, consumers) && Served(t, streams, consumers)
      ensures Housed(streams, consumers)
    {
      hide ValidSpec, ValidConsumer, Planned, PlannedConsumer, Applied, AppliedConsumer;
      ok, forStreams, forConsumers := false, [], [];
      if !ValidTopology(t) {
        return;
      }
      forStreams := PlanStreams(t);
      forConsumers := PlanConsumers(t);
      ok := NoConflict(forStreams) && NoConflict(forConsumers);
      if !ok {
        return;
      }
      forall i | 0 <= i < |forConsumers| && forConsumers[i].Update? ensures KeyOf(t.consumers[i]) in consumers {
        UpdatesKnown(t, streams, consumers, t.consumers[i]);
      }
      ApplyStreams(t, forStreams, defaults);
      ApplyConsumers(t, forConsumers, defaults);
      TopologyConverges(t, old(streams), old(consumers), streams, consumers, defaults);
    }
  }

  lemma UpdatesKnown(t: Topology, streams: Streams, consumers: Consumers, d: ConsumerSpec)
    requires |t.names| == |t.specs|
    ensures PlannedConsumer(t, streams, consumers, d).Update? ==> KeyOf(d) in consumers
  {
  }

  method StreamSubjectsCoverFilter(subjects: seq<string>, filter: string) returns (ok: bool)
    ensures ok <==> CoveredBySome(subjects, filter)
  {
    ok := false;
    for j := 0 to |subjects|
      invariant ok <==> exists k | 0 <= k < j :: Covers(Split(subjects[k]), Split(filter))
    {
      var covers := SubjectPatternCovers(subjects[j], filter);
      ok := ok || covers;
    }
  }

  // ---------------------------------------------------------------- what an applied topology guarantees

  /** A stream that was let through has, afterwards, subjects that cover what was declared for it. */
  lemma AppliedSubjects(current: Option<Stream>, d: Spec, defaults: nat)
    requires !Planned(current, d).Conflict?
    ensures var after := Applied(current, d, defaults);
            after.Some? && multiset(after.value.managed.subjects) == multiset(d.subjects)
  {
    hide Compatible;
  }

  lemma SameCover(a: seq<string>, b: seq<string>, filter: string)
    requires multiset(a) == multiset(b) && CoveredBySome(a, filter)
    ensures CoveredBySome(b, filter)
  {
    hide Covers, Split;
    var j :| 0 <= j < |a| && Covers(Split(a[j]), Split(filter));
    assert a[j] in multiset(b);
    assert a[j] in b;
  }

  /** Every declared consumer exists, with the declared contract, on a stream whose subjects cover its filter. */
  ghost predicate Served(t: Topology, streams: Streams, consumers: Consumers) {
    forall i | 0 <= i < |t.consumers| :: ServedOne(streams, consumers, t.consumers[i])
  }

  ghost predicate ServedOne(streams: Streams, consumers: Consumers, d: ConsumerSpec) {
    && KeyOf(d) in consumers && SameContract(consumers[KeyOf(d)], d)
    && consumers[KeyOf(d)].settings.description == d.description
    && d.stream in streams && CoveredBySome(streams[d.stream].managed.subjects, d.filter)
  }

  /** Planning again finds nothing left to do. */
  ghost predicate Settled(t: Topology, streams: Streams, consumers: Consumers)
    requires |t.names| == |t.specs|
  {
    && (forall k | 0 <= k < |t.specs| :: Planned(Row(streams, t.names[k]), t.specs[k]).Noop?)
    && (forall i | 0 <= i < |t.consumers| :: PlannedConsumer(t, streams, consumers, t.consumers[i]).Noop?)
  }

  ghost predicate Agreed(t: Topology, streams: Streams, consumers: Consumers)
    requires |t.names| == |t.specs|
  {
    && (forall k | 0 <= k < |t.specs| :: !Planned(Row(streams, t.names[k]), t.specs[k]).Conflict?)
    && (forall i | 0 <= i < |t.consumers| :: !PlannedConsumer(t, streams, consumers, t.consumers[i]).Conflict?)
  }

  lemma ConsumerIsServed(t: Topology, streams: Streams, consumers: Consumers, streams': Streams, consumers': Consumers,
                         defaults: nat, i: nat)
    requires ValidTopology(t) && IsApplied(t, streams, consumers, streams', consumers', defaults)
    requires i < |t.consumers| && Agreed(t, streams, consumers)
    ensures ServedOne(streams', consumers', t.consumers[i])
  {
    var d := t.consumers[i];
    hide Covers, Split, ValidSpec, ValidConsumer, Planned, Applied, CoveredBySome;
    assert Row(consumers', KeyOf(d)).Some?;
    var at := IndexOf(t.names, d.stream);
    if at.Some? {
      var k := at.value;
      AppliedSubjects(Row(streams, t.names[k]), t.specs[k], defaults);
      SameCover(t.specs[k].subjects, streams'[d.stream].managed.subjects, d.filter);
    } else {
      assert Row(streams', d.stream) == Row(streams, d.stream);
    }
  }

  lemma ServedIsSettled(t: Topology, streams: Streams, consumers: Consumers, streams': Streams, consumers': Consumers,
                        d: ConsumerSpec)
    requires |t.names| == |t.specs| && ServedOne(streams', consumers', d)
    requires !PlannedConsumer(t, streams, consumers, d).Conflict?
    ensures PlannedConsumer(t, streams', consumers', d).Noop?
  {
    hide CoveredBySome;
  }

  lemma StreamStays(t: Topology, streams: Streams, consumers: Consumers, streams': Streams, consumers': Consumers,
                    defaults: nat, n: string)
    requires ValidTopology(t) && IsApplied(t, streams, consumers, streams', consumers', defaults) && n in streams
    ensures n in streams'
  {
    hide Compared, ValidSpec, ValidConsumer, PlannedConsumer, AppliedConsumer;
    if n in t.names {
      var k :| 0 <= k < |t.names| && t.names[k] == n;
      assert Applied(Row(streams, n), t.specs[k], defaults).Some?;
    }
    assert Row(streams', n).Some?;
  }

  lemma StaysHoused(t: Topology, streams: Streams, consumers: Consumers, streams': Streams, consumers': Consumers, defaults: nat)
    requires ValidTopology(t) && IsApplied(t, streams, consumers, streams', consumers', defaults)
    requires Housed(streams, consumers) && Served(t, streams', consumers')
    ensures Housed(streams', consumers')
  {
    hide ValidTopology, PlannedConsumer, AppliedConsumer, Planned, Applied, SameContract, CoveredBySome;
    forall key | key in consumers' ensures key.0 in streams' {
      if i :| 0 <= i < |t.consumers| && KeyOf(t.consumers[i]) == key {
        assert ServedOne(streams', consumers', t.consumers[i]);
      } else {
        assert Row(consumers', key) == Row(consumers, key);
        StreamStays(t, streams, consumers, streams', consumers', defaults, key.0);
      }
    }
  }

  /** Once applied, a topology is settled, for streams as for consumers, and serves all it declares. */
  lemma TopologyConverges(t: Topology, streams: Streams, consumers: Consumers, streams': Streams, consumers': Consumers,
                          defaults: nat)
    requires ValidTopology(t) && IsApplied(t, streams, consumers, streams', consumers', defaults)
    requires Agreed(t, streams, consumers) && Housed(streams, consumers)
    ensures Settled(t, streams', consumers') && Served(t, streams', consumers') && Housed(streams', consumers')
  {
    forall k | 0 <= k < |t.specs| ensures Planned(Row(streams', t.names[k]), t.specs[k]).Noop? {
      assert ValidSpec(t.specs[k]);
      hide Planned, Applied, ValidConsumer, PlannedConsumer;
      StreamConverges(Row(streams, t.names[k]), t.specs[k], defaults);
    }
    hide Planned, Applied, ValidTopology, PlannedConsumer, IsApplied, ServedOne, Housed;
    forall i | 0 <= i < |t.consumers|
      ensures ServedOne(streams', consumers', t.consumers[i]) && PlannedConsumer(t, streams', consumers', t.consumers[i]).Noop?
    {
      ConsumerIsServed(t, streams, consumers, streams', consumers', defaults, i);
      ServedIsSettled(t, streams, consumers, streams', consumers', t.consumers[i]);
    }
    StaysHoused(t, streams, consumers, streams', consumers', defaults);
  }
}
