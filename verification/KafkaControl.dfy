/** Kafka control headers: how a retry or replay copy carries its origin, attempt, due time and
    attempt generation. Time stamps are printed through one injective text form. */
module KafkaControl {
  import opened InboxTables
  import opened Decimal
  import KafkaTopics

  datatype Header = Header(key: string, value: string)

  datatype Position = Position(topic: string, partition: nat, offset: nat)

  datatype Control = Control(source: Position, attempt: nat, notBefore: Option<Time>, generation: string)

  const SOURCE_TOPIC := "gomessenger-source-topic"
  const SOURCE_PARTITION := "gomessenger-source-partition"
  const SOURCE_OFFSET := "gomessenger-source-offset"
  const ATTEMPT := "gomessenger-attempt"
  const NOT_BEFORE := "gomessenger-not-before"
  const GENERATION := "gomessenger-attempt-generation"
  const REPLAY_PREFIX := "gm-replay-"

  const RESERVED := {SOURCE_TOPIC, SOURCE_PARTITION, SOURCE_OFFSET, ATTEMPT, NOT_BEFORE, GENERATION}

  const MAX_VALUE := 512
  const MAX_GENERATION := 128

  /** Stands for the RFC 3339 form with nanoseconds, an injective print and its parse. */
  function FormatTime(t: Time): string {
    Digits(t)
  }

  function ParseTime(s: string): Option<Time> {
    if s != [] && AllDigits(s) then Some(Value(s)) else None
  }

  // Texts are byte strings: a character stands for one byte of UTF-8.

  function LowerChar(c: char): char {
    if 'A' <= c <= 'Z' then c + ' ' else c
  }

  /** The two letters outside ASCII that lower to ASCII: the dotted capital I and the Kelvin sign. */
  const DOTTED_I := "\U{c4}\U{b0}"
  const KELVIN := "\U{e2}\U{84}\U{aa}"

  /** Lower case, as far as equality with an ASCII name can tell. */
  function Lower(s: string): string {
    if s == "" then ""
    else if DOTTED_I <= s then "i" + Lower(s[2..])
    else if KELVIN <= s then "k" + Lower(s[3..])
    else [LowerChar(s[0])] + Lower(s[1..])
  }

  /** White space as Unicode defines it, encoded. */
  const SPACES: set<string> :=
    {"\t", "\n", "\U{0b}", "\U{0c}", "\r", " ", "\U{c2}\U{85}", "\U{c2}\U{a0}", "\U{e1}\U{9a}\U{80}",
     "\U{e2}\U{80}\U{80}", "\U{e2}\U{80}\U{81}", "\U{e2}\U{80}\U{82}", "\U{e2}\U{80}\U{83}",
     "\U{e2}\U{80}\U{84}", "\U{e2}\U{80}\U{85}", "\U{e2}\U{80}\U{86}", "\U{e2}\U{80}\U{87}",
     "\U{e2}\U{80}\U{88}", "\U{e2}\U{80}\U{89}", "\U{e2}\U{80}\U{8a}", "\U{e2}\U{80}\U{a8}",
     "\U{e2}\U{80}\U{a9}", "\U{e2}\U{80}\U{af}", "\U{e2}\U{81}\U{9f}", "\U{e3}\U{80}\U{80}"}

  /** Trimming would change nothing: no white space at either end. */
  predicate Trimmed(s: string) {
    forall w | w in SPACES :: !(w <= s) && !(|w| <= |s| && s[|s| - |w|..] == w)
  }

  // ---------------------------------------------------------------- printing

  function Headers(m: Control): seq<Header> {
    [Header(SOURCE_TOPIC, m.source.topic),
     Header(SOURCE_PARTITION, Digits(m.source.partition)),
     Header(SOURCE_OFFSET, Digits(m.source.offset)),
     Header(ATTEMPT, Digits(m.attempt))]
    + (if m.notBefore.Some? then [Header(NOT_BEFORE, FormatTime(m.notBefore.value))] else [])
    + (if m.generation != "" then [Header(GENERATION, m.generation)] else [])
  }

  // ---------------------------------------------------------------- parsing

  /** Only reserved headers, each at most once regardless of case, none too large. */
  predicate WellFormed(hs: seq<Header>) {
    && (forall i | 0 <= i < |hs| :: Lower(hs[i].key) in RESERVED && |hs[i].value| <= MAX_VALUE)
    && (forall i, j | 0 <= i < j < |hs| :: Lower(hs[i].key) != Lower(hs[j].key))
  }

  /** The value under a header name, empty if it is absent. */
  function ValueOf(hs: seq<Header>, name: string): string {
    if hs == [] then ""
    else if Lower(hs[|hs| - 1].key) == name then hs[|hs| - 1].value
    else ValueOf(hs[..|hs| - 1], name)
  }

  function Decode(hs: seq<Header>): Option<Control> {
    if WellFormed(hs)
    then Interpret(ValueOf(hs, SOURCE_TOPIC), ValueOf(hs, SOURCE_PARTITION), ValueOf(hs, SOURCE_OFFSET),
                   ValueOf(hs, ATTEMPT), ValueOf(hs, NOT_BEFORE), ValueOf(hs, GENERATION))
    else None
  }

  function Interpret(topic: string, partition: string, offset: string, attempt: string,
                     notBefore: string, generation: string): Option<Control>
  {
    var p, o, a := ParseInt(partition, MAX_INT32), ParseInt(offset, MAX_INT64), ParseUint(attempt, MAX_UINT64);
    var t := ParseTime(notBefore);
    if topic == "" || !KafkaTopics.ValidTopicName(topic) then None
    else if p.None? || p.value < 0 || o.None? || o.value < 0 || a.None? then None
    else if notBefore != "" && t.None? then None
    else if !Trimmed(generation) || |generation| > MAX_GENERATION then None
    else Some(Control(Position(topic, p.value, o.value), a.value, if notBefore == "" then None else t, generation))
  }

  function Lookup(values: map<string, string>, name: string): string {
    if name in values then values[name] else ""
  }

  predicate Names(hs: seq<Header>, name: string) {
    exists i | 0 <= i < |hs| :: Lower(hs[i].key) == name
  }

  /** The map holds exactly the headers read so far. */
  ghost predicate ReadInto(hs: seq<Header>, values: map<string, string>) {
    && WellFormed(hs)
    && forall name :: (name in values <==> Names(hs, name)) && Lookup(values, name) == ValueOf(hs, name)
  }

  lemma NamesSnoc(hs: seq<Header>, h: Header, name: string)
    ensures Names(hs + [h], name) <==> Names(hs, name) || Lower(h.key) == name
  {
    hide Lower;
    var next := hs + [h];
    if Names(hs, name) {
      var i :| 0 <= i < |hs| && Lower(hs[i].key) == name;
      assert next[i] == hs[i];
    }
    assert next[|hs|] == h;
  }

  lemma ValueSnoc(hs: seq<Header>, h: Header, name: string)
    ensures ValueOf(hs + [h], name) == if Lower(h.key) == name then h.value else ValueOf(hs, name)
  {
    hide Lower;
    assert (hs + [h])[..|hs|] == hs;
  }

  lemma WellFormedSnoc(hs: seq<Header>, h: Header)
    requires WellFormed(hs)
    ensures WellFormed(hs + [h]) <==> Lower(h.key) in RESERVED && !Names(hs, Lower(h.key)) && |h.value| <= MAX_VALUE
  {
    hide Lower, RESERVED;
    var next := hs + [h];
    assert next[|hs|] == h && forall i | 0 <= i < |hs| :: next[i] == hs[i];
  }

  lemma CollectStep(hs: seq<Header>, h: Header, values: map<string, string>)
    requires ReadInto(hs, values)
    ensures var key := Lower(h.key);
            && (WellFormed(hs + [h]) <==> key in RESERVED && key !in values && |h.value| <= MAX_VALUE)
            && (WellFormed(hs + [h]) ==> ReadInto(hs + [h], values[key := h.value]))
  {
    hide Lower, RESERVED, WellFormed, Names, ValueOf;
    WellFormedSnoc(hs, h);
    forall name ensures var after := values[Lower(h.key) := h.value];
                        (name in after <==> Names(hs + [h], name)) && Lookup(after, name) == ValueOf(hs + [h], name) {
      NamesSnoc(hs, h, name);
      ValueSnoc(hs, h, name);
    }
  }

  lemma PrefixWellFormed(hs: seq<Header>, n: nat)
    requires n <= |hs|
    ensures WellFormed(hs) ==> WellFormed(hs[..n])
  {
  }

  lemma CollectStart()
    ensures ReadInto([], map[])
  {
  }

  lemma CollectDone(hs: seq<Header>, values: map<string, string>, name: string)
    requires ReadInto(hs, values)
    ensures Lookup(values, name) == ValueOf(hs, name) && WellFormed(hs)
  {
  }

  /** Fills a map header by header, then interprets the six values. */
  method DecodeHeaders(hs: seq<Header>) returns (r: Option<Control>)
    ensures r == Decode(hs)
  {
    DecodeIs(hs);
    hide *;
    var values: map<string, string> := map[];
    CollectStart();
    assert hs[..0] == [];
    for n := 0 to |hs|
      invariant ReadInto(hs[..n], values)
    {
      var key := Lower(hs[n].key);
      CollectStep(hs[..n], hs[n], values);
      assert hs[..n + 1] == hs[..n] + [hs[n]];
      if key !in RESERVED || key in values || |hs[n].value| > MAX_VALUE {
        PrefixWellFormed(hs, n + 1);
        return None;
      }
      values := values[key := hs[n].value];
    }
    assert hs[..|hs|] == hs;
    forall name ensures Lookup(values, name) == ValueOf(hs, name) && WellFormed(hs) {
      CollectDone(hs, values, name);
    }
    CollectDone(hs, values, "");
    r := Interpret(Lookup(values, SOURCE_TOPIC), Lookup(values, SOURCE_PARTITION), Lookup(values, SOURCE_OFFSET),
                   Lookup(values, ATTEMPT), Lookup(values, NOT_BEFORE), Lookup(values, GENERATION));
  }

  lemma DecodeIs(hs: seq<Header>)
    ensures WellFormed(hs) ==>
              Decode(hs) == Interpret(ValueOf(hs, SOURCE_TOPIC), ValueOf(hs, SOURCE_PARTITION),
                                      ValueOf(hs, SOURCE_OFFSET), ValueOf(hs, ATTEMPT),
                                      ValueOf(hs, NOT_BEFORE), ValueOf(hs, GENERATION))
    ensures !WellFormed(hs) ==> Decode(hs) == None
  {
    hide WellFormed, Interpret, ValueOf;
  }

  lemma DecodeTrims(hs: seq<Header>)
    ensures Trimmed("")
    ensures var m := Decode(hs); m.Some? ==> Trimmed(m.value.generation) && |m.value.generation| <= MAX_GENERATION
  {
    assert forall w | w in SPACES :: w != "";
    hide Trimmed, Lower, ValueOf, WellFormed, ParseInt, ParseUint, KafkaTopics.ValidTopicName;
  }

  // ---------------------------------------------------------------- parsing undoes printing

  predicate LowerAscii(s: string) {
    forall k | 0 <= k < |s| :: s[k] < '\U{80}' && !('A' <= s[k] <= 'Z')
  }

  lemma {:induction false} LowerFixes(s: string)
    requires LowerAscii(s)
    ensures Lower(s) == s
  {
    if s != "" {
      LowerFixes(s[1..]);
      assert DOTTED_I[0] == '\U{c4}' && KELVIN[0] == '\U{e2}';
    }
  }

  /** The header names are lower case and pairwise of different length. */
  lemma NamesDiffer()
    ensures Lower(SOURCE_TOPIC) == SOURCE_TOPIC && |SOURCE_TOPIC| == 24
    ensures Lower(SOURCE_PARTITION) == SOURCE_PARTITION && |SOURCE_PARTITION| == 28
    ensures Lower(SOURCE_OFFSET) == SOURCE_OFFSET && |SOURCE_OFFSET| == 25
    ensures Lower(ATTEMPT) == ATTEMPT && |ATTEMPT| == 19
    ensures Lower(NOT_BEFORE) == NOT_BEFORE && |NOT_BEFORE| == 22
    ensures Lower(GENERATION) == GENERATION && |GENERATION| == 30
  {
    TopicName();
    SourceNames();
    AttemptNames();
  }

  lemma TopicName()
    ensures Lower(SOURCE_TOPIC) == SOURCE_TOPIC && |SOURCE_TOPIC| == 24
  {
    hide Lower;
    LowerFixes(SOURCE_TOPIC);
  }

  lemma SourceNames()
    ensures Lower(SOURCE_PARTITION) == SOURCE_PARTITION && |SOURCE_PARTITION| == 28
    ensures Lower(SOURCE_OFFSET) == SOURCE_OFFSET && |SOURCE_OFFSET| == 25
  {
    hide Lower;
    LowerFixes(SOURCE_PARTITION);
    LowerFixes(SOURCE_OFFSET);
  }

  lemma AttemptNames()
    ensures Lower(ATTEMPT) == ATTEMPT && |ATTEMPT| == 19
    ensures Lower(NOT_BEFORE) == NOT_BEFORE && |NOT_BEFORE| == 22
    ensures Lower(GENERATION) == GENERATION && |GENERATION| == 30
  {
    hide Lower;
    LowerFixes(ATTEMPT);
    LowerFixes(NOT_BEFORE);
    LowerFixes(GENERATION);
  }

  lemma {:induction false} ValueFound(hs: seq<Header>, i: nat)
    requires WellFormed(hs) && i < |hs|
    ensures ValueOf(hs, Lower(hs[i].key)) == hs[i].value
  {
    hide Lower;
    var last := |hs| - 1;
    if i < last {
      PrefixWellFormed(hs, last);
      ValueFound(hs[..last], i);
    }
  }

  lemma {:induction false} ValueMissing(hs: seq<Header>, name: string)
    requires forall i | 0 <= i < |hs| :: Lower(hs[i].key) != name
    ensures ValueOf(hs, name) == ""
  {
    if hs != [] {
      ValueMissing(hs[..|hs| - 1], name);
    }
  }

  /** What the headers of a retry copy can carry. */
  predicate Carriable(m: Control) {
    && KafkaTopics.ValidTopicName(m.source.topic)
    && m.source.partition <= MAX_INT32 && m.source.offset <= MAX_INT64 && m.attempt <= MAX_UINT64
    && (m.notBefore.Some? ==> |FormatTime(m.notBefore.value)| <= MAX_VALUE)
    && Trimmed(m.generation) && |m.generation| <= MAX_GENERATION
  }

  /** The printed values all fit. */
  predicate Short(m: Control) {
    && |m.source.topic| <= MAX_VALUE && |Digits(m.source.partition)| <= MAX_VALUE
    && |Digits(m.source.offset)| <= MAX_VALUE && |Digits(m.attempt)| <= MAX_VALUE
    && (m.notBefore.Some? ==> |FormatTime(m.notBefore.value)| <= MAX_VALUE)
    && |m.generation| <= MAX_VALUE
  }

  lemma HeadersWellFormed(m: Control)
    ensures WellFormed(Headers(m)) <==> Short(m)
  {
    NamesDiffer();
    hide Lower, Digits, FormatTime, SOURCE_TOPIC, SOURCE_PARTITION, SOURCE_OFFSET, ATTEMPT, NOT_BEFORE, GENERATION;
    var hs := Headers(m);
    assert hs[0].value == m.source.topic && hs[1].value == Digits(m.source.partition);
    assert hs[2].value == Digits(m.source.offset) && hs[3].value == Digits(m.attempt);
    assert m.notBefore.Some? ==> hs[4] == Header(NOT_BEFORE, FormatTime(m.notBefore.value));
    assert m.generation != "" ==> hs[|hs| - 1] == Header(GENERATION, m.generation);
  }

  lemma HeaderValues(m: Control)
    requires Short(m)
    ensures var hs := Headers(m);
            && ValueOf(hs, SOURCE_TOPIC) == m.source.topic && ValueOf(hs, SOURCE_PARTITION) == Digits(m.source.partition)
            && ValueOf(hs, SOURCE_OFFSET) == Digits(m.source.offset) && ValueOf(hs, ATTEMPT) == Digits(m.attempt)
            && ValueOf(hs, NOT_BEFORE) == (if m.notBefore.Some? then FormatTime(m.notBefore.value) else "")
            && ValueOf(hs, GENERATION) == m.generation
  {
    HeadersWellFormed(m);
    NamesDiffer();
    hide Lower, Digits, FormatTime, ValueOf, WellFormed, Short,
         SOURCE_TOPIC, SOURCE_PARTITION, SOURCE_OFFSET, ATTEMPT, NOT_BEFORE, GENERATION;
    var hs := Headers(m);
    ValueFound(hs, 0);
    ValueFound(hs, 1);
    ValueFound(hs, 2);
    ValueFound(hs, 3);
    if m.notBefore.Some? {
      ValueFound(hs, 4);
    } else {
      ValueMissing(hs, NOT_BEFORE);
    }
    if m.generation != "" {
      ValueFound(hs, |hs| - 1);
    } else {
      ValueMissing(hs, GENERATION);
    }
  }

  function Pow10(k: nat): nat {
    if k == 0 then 1 else 10 * Pow10(k - 1)
  }

  lemma {:induction false} DigitsLength(n: nat, k: nat)
    requires k > 0 && n < Pow10(k)
    ensures |Digits(n)| <= k
  {
    if n >= 10 {
      DigitsLength(n / 10, k - 1);
    }
  }

  lemma CarriableIsShort(m: Control)
    requires Carriable(m)
    ensures Short(m)
  {
    assert Pow10(5) == 100000;
    assert Pow10(10) == 10000000000 && Pow10(15) == 1000000000000000 && Pow10(20) == 100000000000000000000;
    hide Digits, FormatTime;
    DigitsLength(m.source.partition, 20);
    DigitsLength(m.source.offset, 20);
    DigitsLength(m.attempt, 20);
  }

  lemma InterpretPrinted(m: Control)
    ensures Interpret(m.source.topic, Digits(m.source.partition), Digits(m.source.offset), Digits(m.attempt),
                      if m.notBefore.Some? then FormatTime(m.notBefore.value) else "", m.generation) == Some(m)
            <==>
            && KafkaTopics.ValidTopicName(m.source.topic)
            && m.source.partition <= MAX_INT32 && m.source.offset <= MAX_INT64 && m.attempt <= MAX_UINT64
            && Trimmed(m.generation) && |m.generation| <= MAX_GENERATION
  {
    if m.source.partition <= MAX_INT32 && m.source.offset <= MAX_INT64 && m.attempt <= MAX_UINT64 {
      PrintParse(m.source.partition, MAX_INT32);
      PrintParse(m.source.offset, MAX_INT64);
      PrintParse(m.attempt, MAX_UINT64);
    }
    if m.notBefore.Some? {
      DigitsValue(m.notBefore.value);
    }
    hide KafkaTopics.ValidTopicName, Trimmed, Digits, ParseUint, ParseInt, AllDigits, Value;
  }

  /** Decoding undoes printing on exactly the metadata that headers can carry. */
  lemma RoundTrip(m: Control)
    ensures Decode(Headers(m)) == Some(m) <==> Carriable(m)
  {
    hide Interpret, Digits, FormatTime, ValueOf, WellFormed, Headers;
    HeadersWellFormed(m);
    InterpretPrinted(m);
    if Carriable(m) {
      CarriableIsShort(m);
    }
    if Short(m) {
      HeaderValues(m);
    }
  }
}
