/** Kafka topic names: printing source topics, recognising them again, and the consumer service
    topics derived from them. */
module KafkaTopics {
  import opened InboxTables
  import opened Decimal
  import opened Segments

  const MAX_NAME := 249
  const SERVICE := "gm"

  datatype Kind = Command | Event | Query

  /** A Go int on a 64-bit platform. */
  type GoInt = x: int | -MAX_INT64 - 1 <= x <= MAX_INT64

  datatype Descriptor = Descriptor(kind: Kind, name: string, version: GoInt)

  function KindName(k: Kind): string {
    match k
    case Command => "command"
    case Event => "event"
    case Query => "query"
  }

  predicate IdentifierByte(c: char) {
    'a' <= c <= 'z' || 'A' <= c <= 'Z' || '0' <= c <= '9' || c == '.' || c == '-'
  }

  predicate IdentifierBytes(s: string) {
    forall k | 0 <= k < |s| :: IdentifierByte(s[k])
  }

  predicate Token(s: string) {
    s != "" && IdentifierBytes(s)
  }

  predicate ValidTopicName(s: string) {
    0 < |s| <= MAX_NAME && IdentifierBytes(s) && s != "." && s != ".."
  }

  predicate ValidNamespace(ns: string) {
    Token(ns) && "command" !in Split(ns) && "event" !in Split(ns) && SERVICE !in Split(ns)
  }

  function TopicText(ns: string, d: Descriptor): string
    requires d.version > 0
  {
    ns + "." + KindName(d.kind) + "." + d.name + ".v" + Digits(d.version)
  }

  function Topic(ns: string, d: Descriptor): (r: Option<string>)
    ensures r.Some? ==> ValidTopicName(r.value)
  {
    if ValidNamespace(ns) && (d.kind.Command? || d.kind.Event?) && d.name != "" && d.version > 0
       && SERVICE !in Split(d.name) && ValidTopicName(TopicText(ns, d))
    then Some(TopicText(ns, d)) else None
  }

  ghost predicate PrintableAs(value: string, kind: Kind) {
    exists ns, name, version :: Topic(ns, Descriptor(kind, name, version)) == Some(value)
  }

  /** Some namespace and descriptor print this topic. */
  ghost predicate Printable(value: string) {
    exists ns, d :: Topic(ns, d) == Some(value)
  }

  // ---------------------------------------------------------------- segments of a source topic

  lemma VersionPlain(version: nat)
    ensures Plain("v" + Digits(version)) && "v" + Digits(version) != SERVICE
  {
    DigitsValue(version);
    var s := "v" + Digits(version);
    assert forall k | 0 < k < |s| :: s[k] == Digits(version)[k - 1];
    assert s[0] == 'v' && SERVICE[0] == 'g';
  }

  lemma TopicSegments(ns: string, d: Descriptor)
    requires d.version > 0
    ensures Split(TopicText(ns, d))
            == Split(ns) + [KindName(d.kind)] + Split(d.name) + ["v" + Digits(d.version)]
  {
    hide Split;
    var k, v := KindName(d.kind), "v" + Digits(d.version);
    VersionPlain(d.version);
    SplitPlain(v);
    SplitPlain(k);
    assert TopicText(ns, d) == ns + "." + (k + "." + (d.name + "." + v));
    SplitDot(ns, k + "." + (d.name + "." + v));
    SplitDot(k, d.name + "." + v);
    SplitDot(d.name, v);
  }

  /** The first marker segment of a list is where the marker-free prefix ends. */
  lemma FirstMarker<T>(a: seq<T>, x: T, b: seq<T>, c: seq<T>, y: T, d: seq<T>, marks: set<T>)
    requires a + [x] + b == c + [y] + d && x in marks && y in marks
    requires (forall t | t in a :: t !in marks) && (forall t | t in c :: t !in marks)
    ensures a == c && x == y && b == d
  {
    var s := a + [x] + b;
    assert s[|a|] == x && s[|c|] == y;
    assert forall k | 0 <= k < |a| :: s[k] == a[k] && s[k] !in marks;
    assert forall k | 0 <= k < |c| :: s[k] == c[k] && s[k] !in marks;
    assert |a| == |c|;
    assert a == s[..|a|] && c == s[..|a|];
    assert b == s[|a| + 1..] && d == s[|a| + 1..];
  }

  /** Equal topics come from equal namespaces and descriptors. */
  lemma TopicInjective(ns: string, d: Descriptor, ns': string, d': Descriptor)
    requires Topic(ns, d).Some? && Topic(ns, d) == Topic(ns', d')
    ensures ns == ns' && d == d'
  {
    TopicSegments(ns, d);
    TopicSegments(ns', d');
    var v, v' := "v" + Digits(d.version), "v" + Digits(d'.version);
    var b, b' := Split(d.name) + [v], Split(d'.name) + [v'];
    hide Split;
    var s := Split(TopicText(ns, d));
    assert s == Split(ns) + [KindName(d.kind)] + b && s == Split(ns') + [KindName(d'.kind)] + b';
    FirstMarker(Split(ns), KindName(d.kind), b, Split(ns'), KindName(d'.kind), b', {"command", "event"});
    KindNamesDiffer(d.kind, d'.kind);
    SplitInjective(ns, ns');
    assert b[|b| - 1] == v && b'[|b'| - 1] == v';
    assert b[..|b| - 1] == Split(d.name) && b'[..|b'| - 1] == Split(d'.name);
    SplitInjective(d.name, d'.name);
    assert v[1..] == Digits(d.version) && v'[1..] == Digits(d'.version);
    DigitsInjective(d.version, d'.version);
  }

  lemma KindNamesDiffer(a: Kind, b: Kind)
    requires KindName(a) == KindName(b)
    ensures a == b
  {
    assert "command"[0] == 'c' && "event"[0] == 'e' && "query"[0] == 'q';
  }

  // ---------------------------------------------------------------- recognising a source topic

  predicate OccursAt(s: string, w: string, i: nat) {
    i + |w| <= |s| && s[i..i + |w|] == w
  }

  /** strings.Index. */
  function IndexOf(s: string, w: string): (r: Option<nat>)
    ensures r.Some? ==> OccursAt(s, w, r.value)
  {
    if |s| < |w| then None
    else if s[..|w|] == w then Some(0)
    else if s == [] then None
    else
      match IndexOf(s[1..], w)
      case None => None
      case Some(i) =>
        assert s[1..][i..i + |w|] == s[i + 1..i + 1 + |w|];
        Some(i + 1)
  }

  /** strings.LastIndex. */
  function LastIndexOf(s: string, w: string): (r: Option<nat>)
    ensures r.Some? ==> OccursAt(s, w, r.value)
  {
    if |s| < |w| then None
    else if s[|s| - |w|..] == w then Some(|s| - |w|)
    else if s == [] then None
    else
      match LastIndexOf(s[..|s| - 1], w)
      case None => None
      case Some(i) =>
        assert s[..|s| - 1][i..i + |w|] == s[i..i + |w|];
        Some(i)
  }

  lemma {:induction false} IndexIsFirst(s: string, w: string, i: nat)
    requires OccursAt(s, w, i) && forall j: nat | j < i :: !OccursAt(s, w, j)
    ensures IndexOf(s, w) == Some(i)
  {
    if i > 0 {
      assert !OccursAt(s, w, 0);
      assert s[1..][i - 1..i - 1 + |w|] == s[i..i + |w|];
      forall j: nat | j < i - 1 ensures !OccursAt(s[1..], w, j) {
        assert j + 1 + |w| <= |s| ==> s[1..][j..j + |w|] == s[j + 1..j + 1 + |w|];
        assert !OccursAt(s, w, j + 1);
      }
      IndexIsFirst(s[1..], w, i - 1);
    }
  }

  lemma {:induction false} LastIndexIsLast(s: string, w: string, i: nat)
    requires OccursAt(s, w, i) && forall j: nat | i < j :: !OccursAt(s, w, j)
    ensures LastIndexOf(s, w) == Some(i)
  {
    if i + |w| < |s| {
      assert !OccursAt(s, w, |s| - |w|);
      var t := s[..|s| - 1];
      assert t[i..i + |w|] == s[i..i + |w|];
      forall j: nat | i < j ensures !OccursAt(t, w, j) {
        assert j + |w| < |s| ==> t[j..j + |w|] == s[j..j + |w|];
        assert !OccursAt(s, w, j);
      }
      LastIndexIsLast(t, w, i);
    }
  }

  function Marker(kind: Kind): string {
    "." + KindName(kind) + "."
  }

  lemma NoEarlierMarker(ns: string, rest: string, word: string, j: nat)
    requires Plain(word) && word !in Split(ns) && j < |ns|
    ensures !OccursAt(ns + "." + rest, "." + word + ".", j)
  {
    hide Split;
    if OccursAt(ns + "." + rest, "." + word + ".", j) {
      OccurrenceIsSegment(ns, rest, word, j);
    }
  }

  lemma FirstMarkerAt(ns: string, kind: Kind, tail: string)
    requires KindName(kind) !in Split(ns)
    ensures IndexOf(ns + Marker(kind) + tail, Marker(kind)) == Some(|ns|)
  {
    hide Split, IndexOf;
    var word := KindName(kind);
    var value := ns + Marker(kind) + tail;
    assert Plain(word);
    assert value == ns + "." + (word + "." + tail);
    assert OccursAt(value, Marker(kind), |ns|);
    forall j: nat | j < |ns| ensures !OccursAt(value, Marker(kind), j) {
      NoEarlierMarker(ns, word + "." + tail, word, j);
    }
    IndexIsFirst(value, Marker(kind), |ns|);
  }

  lemma NoMarkWithoutDot(s: string, w: string, j: nat)
    requires w != "" && w[0] == '.' && (j < |s| ==> s[j] != '.')
    ensures !OccursAt(s, w, j)
  {
    assert j + |w| <= |s| ==> s[j..j + |w|][0] == s[j];
  }

  lemma LastVersionAt(name: string, digits: string)
    requires Plain(digits)
    ensures LastIndexOf(name + ".v" + digits, ".v") == Some(|name|)
  {
    hide LastIndexOf, OccursAt;
    var tail := name + ".v" + digits;
    VersionOccurs(name, digits);
    forall j: nat | |name| < j ensures !OccursAt(tail, ".v", j) {
      assert j == |name| + 1 ==> tail[j] == 'v';
      assert |name| + 1 < j < |tail| ==> tail[j] == digits[j - |name| - 2];
      NoMarkWithoutDot(tail, ".v", j);
    }
    LastIndexIsLast(tail, ".v", |name|);
  }

  lemma VersionOccurs(name: string, digits: string)
    ensures OccursAt(name + ".v" + digits, ".v", |name|)
  {
    assert (name + ".v" + digits)[|name|..|name| + 2] == ".v";
  }

  lemma Slices(a: string, b: string, c: string)
    ensures (a + b + c)[..|a|] == a && (a + b + c)[|a| + |b|..] == c
  {
  }

  /** One split of a candidate: everything before the marker at index, its descriptor and its version. */
  function ParseAt(value: string, kind: Kind, index: nat): Option<(string, Descriptor)>
    requires OccursAt(value, Marker(kind), index)
  {
    var tail := value[index + |Marker(kind)|..];
    var at := LastIndexOf(tail, ".v");
    if at.None? || at.value == 0 then None
    else
      match ParseInt(tail[at.value + 2..], MAX_INT64)
      case None => None
      case Some(version) =>
        if version > 0 then Some((value[..index], Descriptor(kind, tail[..at.value], version))) else None
  }

  /** The first marker splits a printed topic into what it was printed from. */
  lemma PrintedParses(ns: string, d: Descriptor)
    requires Topic(ns, d).Some?
    ensures var value := Topic(ns, d).value;
            IndexOf(value, Marker(d.kind)) == Some(|ns|) && ParseAt(value, d.kind, |ns|) == Some((ns, d))
  {
    hide *;
    TopicParts(ns, d);
    var value, digits := Topic(ns, d).value, Digits(d.version);
    var tail := d.name + ".v" + digits;
    FirstMarkerAt(ns, d.kind, tail);
    LastVersionAt(d.name, digits);
    PrintParse(d.version, MAX_INT64);
    Slices(ns, Marker(d.kind), tail);
    Slices(d.name, ".v", digits);
    MarkerOccurs(ns, d.kind, tail);
    ParseSteps(value, d, |ns|, tail, digits);
  }

  lemma MarkerOccurs(ns: string, kind: Kind, tail: string)
    ensures OccursAt(ns + Marker(kind) + tail, Marker(kind), |ns|)
  {
    hide Marker;
    var value := ns + Marker(kind) + tail;
    assert value[|ns|..|ns| + |Marker(kind)|] == Marker(kind);
  }

  lemma TopicParts(ns: string, d: Descriptor)
    requires Topic(ns, d).Some?
    ensures Topic(ns, d).value == ns + Marker(d.kind) + (d.name + ".v" + Digits(d.version))
    ensures KindName(d.kind) !in Split(ns) && d.name != "" && 0 < d.version <= MAX_INT64 && Plain(Digits(d.version))
  {
    hide Split, Digits, ValidTopicName, IdentifierBytes;
    VersionPlain(d.version);
    assert Digits(d.version) == ("v" + Digits(d.version))[1..];
  }

  lemma ParseSteps(value: string, d: Descriptor, index: nat, tail: string, digits: string)
    requires OccursAt(value, Marker(d.kind), index) && value[index + |Marker(d.kind)|..] == tail
    requires LastIndexOf(tail, ".v") == Some(|d.name|) && d.name != "" && |d.name| + 2 <= |tail|
    requires tail[..|d.name|] == d.name && tail[|d.name| + 2..] == digits
    requires ParseInt(digits, MAX_INT64) == Some(d.version) && d.version > 0
    ensures ParseAt(value, d.kind, index) == Some((value[..index], d))
  {
    hide LastIndexOf, ParseInt, OccursAt, Marker;
  }

  /** Tries every occurrence of one kind's marker; the first one decides for a printed topic. */
  method MatchesKind(value: string, kind: Kind) returns (ok: bool)
    requires kind.Command? || kind.Event?
    ensures ok <==> PrintableAs(value, kind)
  {
    hide IndexOf, ParseAt, Topic;
    var offset := 0;
    while offset < |value|
      invariant offset <= |value|
      invariant PrintableAs(value, kind) ==> offset == 0
    {
      PrintedAsFirst(value, kind);
      assert offset == 0 ==> value[offset..] == value;
      var relative := IndexOf(value[offset..], Marker(kind));
      if relative.None? {
        break;
      }
      var index := offset + relative.value;
      OccursLater(value, Marker(kind), offset, relative.value);
      var parsed := ParseAt(value, kind, index);
      if parsed.Some? && Topic(parsed.value.0, parsed.value.1) == Some(value) {
        PrintedAs(value, parsed.value.0, parsed.value.1);
        ParsedKind(value, kind, index);
        return true;
      }
      offset := index + |Marker(kind)|;
    }
    if |value| == 0 {
      PrintedNonempty(value, kind);
    }
    return false;
  }

  lemma OccursLater(s: string, w: string, from: nat, i: nat)
    requires from <= |s| && OccursAt(s[from..], w, i)
    ensures OccursAt(s, w, from + i)
  {
    assert s[from..][i..i + |w|] == s[from + i..from + i + |w|];
  }

  lemma PrintedNonempty(value: string, kind: Kind)
    ensures PrintableAs(value, kind) ==> value != ""
  {
  }

  lemma PrintedAs(value: string, ns: string, d: Descriptor)
    requires Topic(ns, d) == Some(value)
    ensures PrintableAs(value, d.kind)
  {
    assert d == Descriptor(d.kind, d.name, d.version);
  }

  lemma ParsedKind(value: string, kind: Kind, index: nat)
    requires OccursAt(value, Marker(kind), index)
    ensures ParseAt(value, kind, index).Some? ==> ParseAt(value, kind, index).value.1.kind == kind
  {
  }

  lemma PrintedAsFirst(value: string, kind: Kind)
    ensures PrintableAs(value, kind) ==>
              var i := IndexOf(value, Marker(kind));
              && i.Some? && ParseAt(value, kind, i.value).Some?
              && var (ns, d) := ParseAt(value, kind, i.value).value; Topic(ns, d) == Some(value)
  {
    if PrintableAs(value, kind) {
      var ns, name, version :| Topic(ns, Descriptor(kind, name, version)) == Some(value);
      PrintedParses(ns, Descriptor(kind, name, version));
    }
  }

  /** Accepts exactly the topics that some namespace and descriptor print. */
  method ValidateSourceTopicName(value: string) returns (ok: bool)
    ensures ok <==> Printable(value)
  {
    PrintableKinds(value);
    ok := MatchesKind(value, Command);
    if !ok {
      ok := MatchesKind(value, Event);
    }
  }

  lemma PrintableKinds(value: string)
    ensures Printable(value) <==> PrintableAs(value, Command) || PrintableAs(value, Event)
  {
    if Printable(value) {
      var ns, d :| Topic(ns, d) == Some(value);
      PrintedAs(value, ns, d);
    }
  }

  // ---------------------------------------------------------------- service topics

  datatype Role = Retry(tier: nat) | Replay | Dlq

  function Suffix(role: Role): string {
    match role
    case Retry(tier) => "retry.t" + Digits(tier)
    case Replay => "replay"
    case Dlq => "dlq"
  }

  function ServiceText(source: string, consumer: string, suffix: string): string {
    source + "." + SERVICE + "." + consumer + "." + suffix
  }

  ghost function ConsumerTopic(source: string, consumer: string, suffix: string): Option<string> {
    if Printable(source) && Token(consumer) && ValidTopicName(ServiceText(source, consumer, suffix))
    then Some(ServiceText(source, consumer, suffix)) else None
  }

  method MakeConsumerTopic(source: string, consumer: string, suffix: string) returns (r: Option<string>)
    ensures r == ConsumerTopic(source, consumer, suffix)
  {
    var ok := ValidateSourceTopicName(source);
    if !ok || !Token(consumer) || !ValidTopicName(ServiceText(source, consumer, suffix)) {
      return None;
    }
    r := Some(ServiceText(source, consumer, suffix));
  }

  function SuffixSegments(role: Role): seq<string> {
    match role
    case Retry(tier) => ["retry", "t" + Digits(tier)]
    case Replay => ["replay"]
    case Dlq => ["dlq"]
  }

  lemma TierPlain(tier: nat)
    ensures Plain("t" + Digits(tier))
  {
    DigitsValue(tier);
    var s := "t" + Digits(tier);
    assert forall k | 0 < k < |s| :: s[k] == Digits(tier)[k - 1];
  }

  lemma SuffixSplits(role: Role)
    ensures Split(Suffix(role)) == SuffixSegments(role)
  {
    hide Split;
    SplitPlain("replay");
    SplitPlain("dlq");
    if role.Retry? {
      var t := "t" + Digits(role.tier);
      TierPlain(role.tier);
      SplitPlain("retry");
      SplitPlain(t);
      SplitDot("retry", t);
      assert Suffix(role) == "retry" + "." + t;
    }
  }

  lemma ServiceSegments(source: string, consumer: string, role: Role)
    ensures Split(ServiceText(source, consumer, Suffix(role)))
            == Split(source) + [SERVICE] + (Split(consumer) + SuffixSegments(role))
  {
    hide Split, Suffix;
    SuffixSplits(role);
    SplitPlain(SERVICE);
    var rest := consumer + "." + Suffix(role);
    assert ServiceText(source, consumer, Suffix(role)) == source + "." + (SERVICE + "." + rest);
    SplitDot(source, SERVICE + "." + rest);
    SplitDot(SERVICE, rest);
    SplitDot(consumer, Suffix(role));
  }

  lemma SourceHasNoService(source: string)
    requires Printable(source)
    ensures SERVICE !in Split(source)
  {
    var ns, d :| Topic(ns, d) == Some(source);
    TopicSegments(ns, d);
    VersionPlain(d.version);
    assert KindName(d.kind) != SERVICE by {
      assert |"command"| == 7 && |"event"| == 5 && |SERVICE| == 2;
    }
  }

  /** No service topic is a source topic of any namespace and descriptor. */
  lemma ServiceIsNeverSource(source: string, consumer: string, role: Role)
    ensures var t := ConsumerTopic(source, consumer, Suffix(role)); t.Some? ==> !Printable(t.value)
  {
    hide Split, Suffix, Printable;
    var text := ServiceText(source, consumer, Suffix(role));
    ServiceSegments(source, consumer, role);
    assert Split(text)[|Split(source)|] == SERVICE;
    if Printable(text) {
      SourceHasNoService(text);
    }
  }

  lemma LastSegments(a: seq<string>, r: Role, a': seq<string>, r': Role)
    requires a + SuffixSegments(r) == a' + SuffixSegments(r')
    ensures a == a' && r == r'
  {
    var s, s' := a + SuffixSegments(r), a' + SuffixSegments(r');
    var x, x' := SuffixSegments(r), SuffixSegments(r');
    assert s[|s| - 1] == x[|x| - 1] && s'[|s'| - 1] == x'[|x'| - 1];
    assert "replay"[0] == 'r' && "dlq"[0] == 'd';
    assert r.Retry? ==> ("t" + Digits(r.tier))[0] == 't' && ("t" + Digits(r.tier))[1..] == Digits(r.tier);
    assert r'.Retry? ==> ("t" + Digits(r'.tier))[0] == 't' && ("t" + Digits(r'.tier))[1..] == Digits(r'.tier);
    if r.Retry? && r'.Retry? {
      DigitsInjective(r.tier, r'.tier);
    }
    assert a == s[..|s| - |x|] && a' == s'[..|s'| - |x'|];
  }

  /** Service topics of different source, consumer, role or tier never coincide, although consumer IDs
      may contain dots and may look like service suffixes themselves. */
  lemma ServiceTopicsDistinct(source: string, consumer: string, role: Role,
                              source': string, consumer': string, role': Role)
    requires var t := ConsumerTopic(source, consumer, Suffix(role));
             t.Some? && t == ConsumerTopic(source', consumer', Suffix(role'))
    ensures source == source' && consumer == consumer' && role == role'
  {
    hide Split, Suffix, Printable;
    ServiceSegments(source, consumer, role);
    ServiceSegments(source', consumer', role');
    SourceHasNoService(source);
    SourceHasNoService(source');
    FirstMarker(Split(source), SERVICE, Split(consumer) + SuffixSegments(role),
                Split(source'), SERVICE, Split(consumer') + SuffixSegments(role'), {SERVICE});
    LastSegments(Split(consumer), role, Split(consumer'), role');
    SplitInjective(source, source');
    SplitInjective(consumer, consumer');
  }

  ghost function RetryTopic(source: string, consumer: string, tier: nat): Option<string> {
    ConsumerTopic(source, consumer, Suffix(Retry(tier)))
  }

  /** The prefix of a valid retry topic is itself a valid name. */
  lemma RetryPrefix(source: string, consumer: string, tier: nat)
    requires RetryTopic(source, consumer, tier).Some?
    ensures var prefix := ConsumerTopic(source, consumer, "retry.t");
            prefix.Some? && RetryTopic(source, consumer, tier).value == prefix.value + Digits(tier)
  {
    hide Printable;
    var text, prefix := ServiceText(source, consumer, Suffix(Retry(tier))), ServiceText(source, consumer, "retry.t");
    assert text == prefix + Digits(tier);
    assert forall k | 0 <= k < |prefix| :: prefix[k] == text[k];
    assert |prefix| > 7;
  }

  /** Recovers the tier of exactly the retry topics of this source and consumer. */
  method RetryTierFromTopic(name: string, source: string, consumer: string) returns (tier: Option<nat>)
    ensures tier.Some? ==> RetryTopic(source, consumer, tier.value) == Some(name)
    ensures forall t: nat | t <= MAX_INT64 && RetryTopic(source, consumer, t) == Some(name) :: tier == Some(t)
  {
    hide RetryTopic, ConsumerTopic;
    forall t: nat | RetryTopic(source, consumer, t) == Some(name)
      ensures ConsumerTopic(source, consumer, "retry.t").Some?
      ensures name == ConsumerTopic(source, consumer, "retry.t").value + Digits(t)
      ensures t <= MAX_INT64 ==> ParseInt(Digits(t), MAX_INT64) == Some(t)
    {
      RetryPrefix(source, consumer, t);
      if t <= MAX_INT64 {
        PrintParse(t, MAX_INT64);
      }
    }
    var prefix := MakeConsumerTopic(source, consumer, "retry.t");
    if prefix.None? || !(prefix.value <= name) {
      return None;
    }
    var parsed := ParseInt(name[|prefix.value|..], MAX_INT64);
    if parsed.None? || parsed.value < 0 {
      return None;
    }
    RetryTopicIs(source, consumer, parsed.value);
    var expected := MakeConsumerTopic(source, consumer, Suffix(Retry(parsed.value)));
    if expected != Some(name) {
      return None;
    }
    tier := Some(parsed.value);
  }

  lemma RetryTopicIs(source: string, consumer: string, tier: nat)
    ensures RetryTopic(source, consumer, tier) == ConsumerTopic(source, consumer, Suffix(Retry(tier)))
  {
  }
}
