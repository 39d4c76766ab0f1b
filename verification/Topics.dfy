/** Topic names of an agent group: derived from topic families, classified back, and the
    list of topics a service subscribes to. */
module Topics {
  import opened Ordering
  import opened Text

  /** The families that have exactly one topic, in the order in which a topic name is tried
      against them. */
  const FIXED_FAMILIES: seq<string> := [
    "announce", "control.roster", "control.onboarding", "requests", "responses", "tasks.status",
    "traces", "observe.audit", "memory.shared", "memory.context", "orchestrator"
  ]

  function TopicName(groupName: string, family: string): string {
    "group." + groupName + "." + family
  }

  function TopicForFamily(groupName: string, family: string): (string, bool) {
    if TrimSpace(family) in FIXED_FAMILIES then (TopicName(groupName, TrimSpace(family)), true)
    else ("", false)
  }

  function SkillTopicPrefix(groupName: string): string {
    "group." + groupName + ".skill."
  }

  /** The first family of the list whose topic this is. */
  function FirstMatch(topic: string, groupName: string, families: seq<string>): string {
    if families == [] then
      if SkillTopicPrefix(groupName) <= topic then "skills" else ""
    else if topic == TopicName(groupName, families[0]) then families[0]
    else FirstMatch(topic, groupName, families[1..])
  }

  function ClassifyTopic(topic: string, groupName: string): string {
    FirstMatch(TrimSpace(topic), groupName, FIXED_FAMILIES)
  }

  lemma NameTellsFamily(groupName: string, f: string, g: string)
    requires TopicName(groupName, f) == TopicName(groupName, g)
    ensures f == g
  {
    var n := |"group." + groupName + "."|;
    assert TopicName(groupName, f)[n..] == f && TopicName(groupName, g)[n..] == g;
  }

  lemma {:induction false} MatchFindsFamily(groupName: string, family: string, families: seq<string>)
    requires family in families
    ensures FirstMatch(TopicName(groupName, family), groupName, families) == family
  {
    if TopicName(groupName, family) == TopicName(groupName, families[0]) {
      NameTellsFamily(groupName, family, families[0]);
    } else {
      MatchFindsFamily(groupName, family, families[1..]);
    }
  }

  /** Fixed topic names carry no outer white space, whatever the group is called. */
  lemma NamesAreTrimmed(groupName: string, family: string)
    requires family in FIXED_FAMILIES
    ensures TrimSpace(TopicName(groupName, family)) == TopicName(groupName, family)
  {
    var name := TopicName(groupName, family);
    assert name[0] == 'g' && name[|name| - 1] == family[|family| - 1];
    TrimmedAlready(name);
  }

  /** MAIN RESULT.  A family has a topic exactly if its trimmed name is a fixed family, and
      classifying that topic gives the trimmed name back. */
  lemma ClassifyInvertsTopicForFamily(groupName: string, family: string)
    ensures var (topic, ok) := TopicForFamily(groupName, family);
            && (ok <==> TrimSpace(family) in {
                  "announce", "control.roster", "control.onboarding", "requests", "responses", "tasks.status",
                  "traces", "observe.audit", "memory.shared", "memory.context", "orchestrator"})
            && (ok ==> topic == "group." + groupName + "." + TrimSpace(family))
            && (ok ==> ClassifyTopic(topic, groupName) == TrimSpace(family))
  {
    if TrimSpace(family) in FIXED_FAMILIES {
      NamesAreTrimmed(groupName, TrimSpace(family));
      MatchFindsFamily(groupName, TrimSpace(family), FIXED_FAMILIES);
    }
  }

  lemma {:induction false} MatchIsName(topic: string, groupName: string, families: seq<string>)
    ensures var f := FirstMatch(topic, groupName, families);
            || (f in families && topic == TopicName(groupName, f))
            || (f == "skills" && SkillTopicPrefix(groupName) <= topic)
            || (f == "" && !(SkillTopicPrefix(groupName) <= topic)
                && forall g :: g in families ==> topic != TopicName(groupName, g))
  {
    if families != [] && topic != TopicName(groupName, families[0]) {
      MatchIsName(topic, groupName, families[1..]);
    }
  }

  /** The other direction: a topic classifies as a fixed family only if, trimmed, it is that
      family's topic; as `skills` only under the skill prefix; and as nothing otherwise. */
  lemma ClassifyIsSound(topic: string, groupName: string)
    ensures var f := ClassifyTopic(topic, groupName);
            var t := TrimSpace(topic);
            || (f in FIXED_FAMILIES && (t, true) == TopicForFamily(groupName, f))
            || (f == "skills" && "group." + groupName + ".skill." <= t)
            || (f == "" && !("group." + groupName + ".skill." <= t)
                && forall g :: TopicForFamily(groupName, g).1 ==> TopicForFamily(groupName, g).0 != t)
  {
    var f := ClassifyTopic(topic, groupName);
    MatchIsName(TrimSpace(topic), groupName, FIXED_FAMILIES);
    if f in FIXED_FAMILIES {
      TrimmedAlready(f);
    }
  }

  // ---------- the subscription list ----------

  /** What normalisation must return: the strictly sorted list of the trimmed values that are
      not blank.  `SortedIsUnique` makes it the only such list. */
  ghost predicate IsNormalized(values: seq<string>, out: seq<string>) {
    && StrictlySorted(out)
    && forall t :: t in out <==> t != "" && exists v :: v in values && TrimSpace(v) == t
  }

  method NormalizeTopics(values: seq<string>) returns (out: seq<string>)
    ensures IsNormalized(values, out)
  {
    var seen: set<string> := {};
    out := [];
    for i := 0 to |values|
      invariant NoDuplicates(out)
      invariant forall t :: t in out <==> t in seen
      invariant forall t :: t in seen <==> t != "" && exists v :: v in values[..i] && TrimSpace(v) == t
    {
      assert values[..i + 1] == values[..i] + [values[i]];
      var value := TrimSpace(values[i]);
      if value == "" {
        continue;
      }
      if value in seen {
        continue;
      }
      seen := seen + {value};
      out := out + [value];
    }
    assert values[..|values|] == values;
    StringsSorted(out);
    out := SortStrings(out);
  }

  /** `manualMode` is the outcome of the case-insensitive comparison of the trimmed mode
      with "manual". */
  method DeriveTopics(
      groupName: string, required: seq<string>, optional: seq<string>, manual: seq<string>, manualMode: bool)
    returns (out: seq<string>)
    ensures manualMode ==> IsNormalized(manual, out)
    ensures !manualMode ==>
      && StrictlySorted(out)
      && forall t :: t in out <==>
           exists f :: f in required + optional && TrimSpace(f) in FIXED_FAMILIES
                       && t == TopicName(groupName, TrimSpace(f))
  {
    if manualMode {
      out := NormalizeTopics(manual);
      return;
    }
    var topics: seq<string> := [];
    var families := required + optional;
    for i := 0 to |families|
      invariant forall t :: t in topics ==>
        exists f :: f in families && TrimSpace(f) in FIXED_FAMILIES && t == TopicName(groupName, TrimSpace(f))
      invariant forall k :: 0 <= k < i && TrimSpace(families[k]) in FIXED_FAMILIES ==>
        TopicName(groupName, TrimSpace(families[k])) in topics
    {
      if families[i] == "skills" {
        TrimmedAlready("skills");
        continue;
      }
      var (topic, ok) := TopicForFamily(groupName, families[i]);
      if ok {
        topics := topics + [topic];
      }
    }
    out := NormalizeTopics(topics);
    forall t | t in topics ensures TrimSpace(t) == t && t != "" {
      var f :| f in families && TrimSpace(f) in FIXED_FAMILIES && t == TopicName(groupName, TrimSpace(f));
      NamesAreTrimmed(groupName, TrimSpace(f));
    }
  }

  /** MAIN RESULT.  Every topic of an automatically derived list classifies to a requested
      family, so no record read from it is rejected as an unknown topic. */
  lemma DerivedTopicsAreKnown(groupName: string, required: seq<string>, optional: seq<string>, out: seq<string>)
    requires forall t :: t in out ==>
      exists f :: f in required + optional && TrimSpace(f) in FIXED_FAMILIES
                  && t == TopicName(groupName, TrimSpace(f))
    ensures forall t :: t in out ==>
      && ClassifyTopic(t, groupName) != ""
      && exists f :: f in required + optional && ClassifyTopic(t, groupName) == TrimSpace(f)
  {
    forall t | t in out
      ensures ClassifyTopic(t, groupName) != ""
      ensures exists f :: f in required + optional && ClassifyTopic(t, groupName) == TrimSpace(f)
    {
      var f :| f in required + optional && TrimSpace(f) in FIXED_FAMILIES && t == TopicName(groupName, TrimSpace(f));
      ClassifyInvertsTopicForFamily(groupName, f);
    }
  }
}
