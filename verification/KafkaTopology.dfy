/** Planning and applying Kafka topology: missing topics are created, limits are only raised, and a plan
    with a conflict changes nothing. */
module KafkaTopology {
  import opened InboxTables
  import opened Decimal

  datatype TopicSpec = TopicSpec(name: string, partitions: nat, replication: nat, minInSync: int,
                                 retentionMillis: int, retentionBytes: int, maxMessageBytes: int)

  /** What the broker reports; replication is None when it differs across partitions. */
  datatype Current = Absent | Present(partitions: nat, replication: Option<nat>, configs: map<string, string>)

  const CLEANUP := "cleanup.policy"
  const MIN_IN_SYNC := "min.insync.replicas"
  const RETENTION_MS := "retention.ms"
  const RETENTION_BYTES := "retention.bytes"
  const MAX_MESSAGE := "max.message.bytes"

  /** One managed numeric setting: its name, its declared value and whether -1 means unlimited. */
  datatype Setting = Setting(field: string, value: int, infinite: bool)

  function Settings(t: TopicSpec): seq<Setting> {
    [Setting(MIN_IN_SYNC, t.minInSync, false), Setting(RETENTION_MS, t.retentionMillis, true),
     Setting(RETENTION_BYTES, t.retentionBytes, true), Setting(MAX_MESSAGE, t.maxMessageBytes, false)]
  }

  datatype Verdict = Same | Raise | Clash

  /** The comparison of one setting, branch by branch. */
  function CompareConfig(configs: map<string, string>, s: Setting): Verdict {
    if s.field !in configs then Clash
    else
      var current := ParseInt(configs[s.field], MAX_INT64);
      if current.None? then Clash
      else if current.value == s.value then Same
      else if (s.infinite && s.value == -1 && current.value != -1) || (current.value != -1 && current.value < s.value)
      then Raise
      else Clash
  }

  /** The order in which -1 stands above every other value. */
  predicate Below(a: int, b: int) {
    a != -1 && (b == -1 || a < b)
  }

  /** A setting is changed only upwards; for settings that know no infinity -1 cannot be declared. */
  lemma RaiseIsUpward(configs: map<string, string>, s: Setting)
    requires s.infinite || s.value >= 0
    ensures CompareConfig(configs, s).Raise? <==>
              && s.field in configs && ParseInt(configs[s.field], MAX_INT64).Some?
              && Below(ParseInt(configs[s.field], MAX_INT64).value, s.value)
  {
    hide ParseInt;
  }

  datatype Change = Keep | Create | Update(fields: set<string>) | Conflict

  /** The plan for one topic. */
  method PlanTopic(current: Current, t: TopicSpec) returns (c: Change)
    ensures c == Planned(current, t)
  {
    hide CompareConfig;
    if current.Absent? {
      return Create;
    }
    var conflict := current.partitions != t.partitions || current.replication != Some(t.replication);
    if CLEANUP !in current.configs || current.configs[CLEANUP] != "delete" {
      conflict := true;
    }
    var updates: set<string> := {};
    var settings := Settings(t);
    for i := 0 to |settings|
      invariant conflict <==> Drifts(current, t) || exists j | 0 <= j < i :: CompareConfig(current.configs, settings[j]).Clash?
      invariant updates == Raised(current.configs, settings[..i])
    {
      assert settings[..i + 1][..i] == settings[..i];
      match CompareConfig(current.configs, settings[i])
      case Same =>
      case Raise => updates := updates + {settings[i].field};
      case Clash => conflict := true;
    }
    assert settings[..|settings|] == settings;
    if conflict {
      return Conflict;
    }
    c := if updates != {} then Update(updates) else Keep;
  }

  predicate Drifts(current: Current, t: TopicSpec)
    requires current.Present?
  {
    || current.partitions != t.partitions || current.replication != Some(t.replication)
    || CLEANUP !in current.configs || current.configs[CLEANUP] != "delete"
  }

  function Raised(configs: map<string, string>, ss: seq<Setting>): set<string> {
    if ss == [] then {}
    else
      var last := |ss| - 1;
      Raised(configs, ss[..last]) + if CompareConfig(configs, ss[last]).Raise? then {ss[last].field} else {}
  }

  predicate Clashes(configs: map<string, string>, ss: seq<Setting>) {
    exists j | 0 <= j < |ss| :: CompareConfig(configs, ss[j]).Clash?
  }

  function Planned(current: Current, t: TopicSpec): Change {
    if current.Absent? then Create
    else if Drifts(current, t) || Clashes(current.configs, Settings(t)) then Conflict
    else if Raised(current.configs, Settings(t)) != {} then Update(Raised(current.configs, Settings(t)))
    else Keep
  }

  // ---------------------------------------------------------------- applying

  function DesiredConfigs(t: TopicSpec): map<string, string> {
    map[CLEANUP := "delete", MIN_IN_SYNC := FormatInt(t.minInSync), RETENTION_MS := FormatInt(t.retentionMillis),
        RETENTION_BYTES := FormatInt(t.retentionBytes), MAX_MESSAGE := FormatInt(t.maxMessageBytes)]
  }

  /** What the broker reports after one planned change was carried out. */
  function Applied(current: Current, t: TopicSpec): Current {
    match Planned(current, t)
    case Create => Present(t.partitions, Some(t.replication), DesiredConfigs(t))
    case Update(fields) =>
      current.(configs := map f | f in current.configs ::
                            if f in fields && f in DesiredConfigs(t) then DesiredConfigs(t)[f] else current.configs[f])
    case _ => current
  }

  predicate InRange(t: TopicSpec) {
    forall s | s in Settings(t) :: -MAX_INT64 - 1 <= s.value <= MAX_INT64
  }

  lemma {:induction false} RaisedMembers(configs: map<string, string>, ss: seq<Setting>, f: string)
    ensures f in Raised(configs, ss) <==> exists j | 0 <= j < |ss| :: ss[j].field == f && CompareConfig(configs, ss[j]).Raise?
  {
    hide CompareConfig;
    if ss != [] {
      var last := |ss| - 1;
      RaisedMembers(configs, ss[..last], f);
      if j :| 0 <= j < |ss| && ss[j].field == f && CompareConfig(configs, ss[j]).Raise? {
        assert j < last ==> ss[..last][j] == ss[j];
      }
      if f in Raised(configs, ss[..last]) {
        var j :| 0 <= j < last && ss[..last][j].field == f && CompareConfig(configs, ss[..last][j]).Raise?;
        assert ss[j].field == f;
      }
    }
  }

  /** The managed settings have different names, and the declared text of each is its declared value. */
  lemma SettingNames(t: TopicSpec, j: nat)
    requires j < 4
    ensures var s := Settings(t)[j];
            && s.field != CLEANUP && s.field in DesiredConfigs(t) && DesiredConfigs(t)[s.field] == FormatInt(s.value)
            && forall k | 0 <= k < 4 && Settings(t)[k].field == s.field :: k == j
    ensures CLEANUP in DesiredConfigs(t) && DesiredConfigs(t)[CLEANUP] == "delete"
  {
    hide FormatInt;
    assert |CLEANUP| == 14 && |MIN_IN_SYNC| == 19 && |RETENTION_MS| == 12;
    assert |RETENTION_BYTES| == 15 && |MAX_MESSAGE| == 17;
  }

  lemma DesiredIsSame(configs: map<string, string>, s: Setting)
    requires -MAX_INT64 - 1 <= s.value <= MAX_INT64 && s.field in configs && configs[s.field] == FormatInt(s.value)
    ensures CompareConfig(configs, s).Same?
  {
    PrintParseInt(s.value);
    hide ParseInt, FormatInt;
  }

  /** After its change every setting of a topic equals its declaration. */
  lemma SettingConverges(current: Current, t: TopicSpec, j: nat)
    requires InRange(t) && !Planned(current, t).Conflict? && j < 4
    ensures var after := Applied(current, t);
            after.Present? && CompareConfig(after.configs, Settings(t)[j]).Same?
  {
    var after, s := Applied(current, t), Settings(t)[j];
    SettingNames(t, j);
    assert s in Settings(t);
    hide CompareConfig, DesiredConfigs, FormatInt, ParseInt;
    if current.Absent? {
      DesiredIsSame(after.configs, s);
    } else {
      RaisedMembers(current.configs, Settings(t), s.field);
      assert !CompareConfig(current.configs, s).Clash?;
      SettingKnown(current.configs, s);
      if CompareConfig(current.configs, s).Raise? {
        DesiredIsSame(after.configs, s);
      } else {
        SameText(current.configs, after.configs, s);
      }
    }
  }

  lemma SettingKnown(configs: map<string, string>, s: Setting)
    requires !CompareConfig(configs, s).Clash?
    ensures s.field in configs
  {
  }

  lemma SameText(a: map<string, string>, b: map<string, string>, s: Setting)
    requires s.field in a && s.field in b && a[s.field] == b[s.field]
    ensures CompareConfig(a, s) == CompareConfig(b, s)
  {
    hide ParseInt;
  }

  /** Planning again after an apply finds nothing left to do. */
  lemma TopicConverges(current: Current, t: TopicSpec)
    requires InRange(t) && !Planned(current, t).Conflict?
    ensures Planned(Applied(current, t), t).Keep?
  {
    var after := Applied(current, t);
    forall j | 0 <= j < 4 ensures CompareConfig(after.configs, Settings(t)[j]).Same? {
      SettingConverges(current, t, j);
    }
    SettingConverges(current, t, 0);
    CleanupKept(current, t);
    hide CompareConfig, Applied, DesiredConfigs;
    if Raised(after.configs, Settings(t)) != {} {
      var f :| f in Raised(after.configs, Settings(t));
      RaisedMembers(after.configs, Settings(t), f);
    }
  }

  lemma CleanupKept(current: Current, t: TopicSpec)
    requires !Planned(current, t).Conflict?
    ensures Applied(current, t).Present? && !Drifts(Applied(current, t), t)
  {
    SettingNames(t, 0);
    SettingNames(t, 1);
    SettingNames(t, 2);
    SettingNames(t, 3);
    hide CompareConfig, DesiredConfigs, FormatInt;
    if current.Present? {
      RaisedMembers(current.configs, Settings(t), CLEANUP);
    }
  }

  // ---------------------------------------------------------------- the whole topology

  function At(topics: map<string, Current>, name: string): Current {
    if name in topics then topics[name] else Absent
  }

  predicate Named(specs: seq<TopicSpec>) {
    forall i, j | 0 <= i < j < |specs| :: specs[i].name != specs[j].name
  }

  class Cluster {
    var topics: map<string, Current>

    /** Plans every topic first; a conflict anywhere refuses the whole topology before any change. */
    method ApplyTopology(specs: seq<TopicSpec>) returns (plan: seq<Change>, ok: bool)
      requires Named(specs)
      modifies this
      ensures |plan| == |specs| && forall i | 0 <= i < |specs| :: plan[i] == Planned(At(old(topics), specs[i].name), specs[i])
      ensures ok <==> forall i | 0 <= i < |plan| :: !plan[i].Conflict?
      ensures !ok ==> topics == old(topics)
      ensures ok ==> forall i | 0 <= i < |specs| ::
                       At(topics, specs[i].name) == Applied(At(old(topics), specs[i].name), specs[i])
      ensures forall n | (forall i | 0 <= i < |specs| :: specs[i].name != n) :: At(topics, n) == At(old(topics), n)
    {
      hide Planned, Applied;
      ghost var before := topics;
      plan, ok := [], true;
      for i := 0 to |specs|
        invariant topics == before && |plan| == i
        invariant forall j | 0 <= j < i :: plan[j] == Planned(At(before, specs[j].name), specs[j])
        invariant ok <==> forall j | 0 <= j < i :: !plan[j].Conflict?
      {
        var change := PlanTopic(At(topics, specs[i].name), specs[i]);
        plan := plan + [change];
        ok := ok && !change.Conflict?;
      }
      if !ok {
        return;
      }
      for i := 0 to |specs|
        invariant forall j | 0 <= j < i :: At(topics, specs[j].name) == Applied(At(before, specs[j].name), specs[j])
        invariant forall n | (forall j | 0 <= j < i :: specs[j].name != n) :: At(topics, n) == At(before, n)
      {
        var t := specs[i];
        KeepChangesNothing(At(topics, t.name), t);
        if !plan[i].Keep? {
          topics := topics[t.name := Applied(At(topics, t.name), t)];
        }
      }
    }
  }

  lemma KeepChangesNothing(current: Current, t: TopicSpec)
    ensures Planned(current, t).Keep? ==> Applied(current, t) == current
  {
    hide Planned;
  }

  /** A topology that was applied plans to no change at all. */
  lemma TopologyConverges(before: map<string, Current>, after: map<string, Current>, specs: seq<TopicSpec>)
    requires forall i | 0 <= i < |specs| ::
               && InRange(specs[i]) && !Planned(At(before, specs[i].name), specs[i]).Conflict?
               && At(after, specs[i].name) == Applied(At(before, specs[i].name), specs[i])
    ensures forall i | 0 <= i < |specs| :: Planned(At(after, specs[i].name), specs[i]).Keep?
  {
    hide Planned, Applied, InRange;
    forall i | 0 <= i < |specs| ensures Planned(At(after, specs[i].name), specs[i]).Keep? {
      TopicConverges(At(before, specs[i].name), specs[i]);
    }
  }
}
