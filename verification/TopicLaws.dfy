/** What a match means, and how it compares with section 4.7 of MQTT 3.1.1. */
module TopicLaws {
  import opened Text
  import opened Topics

  // ----- A match is a substitution --------------------------------------------------------

  /** A level a wildcard may stand for. */
  ghost predicate PlainLevel(level: string) { '/' !in level && WildcardFree(level) }

  ghost predicate PlainLevels(levels: seq<string>) {
    forall i :: 0 <= i < |levels| ==> PlainLevel(levels[i])
  }

  /** `parts` may stand in the place of one filter level. */
  ghost predicate Replaces(level: string, parts: seq<string>) {
    if level == PLUS then |parts| == 1 && PlainLevels(parts)
    else if level == HASH then |parts| >= 1 && PlainLevels(parts)
    else parts == [level]
  }

  ghost function Flatten(parts: seq<seq<string>>): seq<string> {
    if parts == [] then [] else parts[0] + Flatten(parts[1..])
  }

  ghost predicate Substitution(filter: seq<string>, parts: seq<seq<string>>) {
    |parts| == |filter| && forall i :: 0 <= i < |filter| ==> Replaces(filter[i], parts[i])
  }

  lemma {:induction false} SubstitutionNonempty(filter: seq<string>, parts: seq<seq<string>>)
    requires Substitution(filter, parts)
    ensures |Flatten(parts)| >= |filter|
    decreases |parts|
  {
    if parts != [] {
      assert Replaces(filter[0], parts[0]);
      SubstitutionNonempty(filter[1..], parts[1..]);
    }
  }

  /** Every level left over by the wildcards is slash-free and wildcard-free. */
  ghost predicate Literals(filter: seq<string>) {
    && (forall i :: 0 <= i < |filter| ==> '/' !in filter[i] && LegalLevel(filter[i]))
    && (forall i :: 0 <= i < |filter| && filter[i] == HASH ==> i == |filter| - 1)
  }

  lemma {:induction false} MatchFromSubstitution(filter: seq<string>, parts: seq<seq<string>>)
    requires Literals(filter) && Substitution(filter, parts)
    ensures Matches(filter, Flatten(parts)) && PlainLevels(Flatten(parts))
    decreases |filter|
  {
    if filter != [] {
      assert Replaces(filter[0], parts[0]);
      var tail := Flatten(parts[1..]);
      if filter[0] == HASH {
        assert parts[1..] == [];
        assert Flatten(parts) == parts[0] + [];
      } else {
        MatchFromSubstitution(filter[1..], parts[1..]);
        assert parts[0] == [parts[0][0]];
        assert Flatten(parts) == [parts[0][0]] + tail;
        assert Flatten(parts)[1..] == tail;
      }
    }
  }

  lemma {:induction false} SubstitutionFromMatch(filter: seq<string>, topic: seq<string>)
      returns (parts: seq<seq<string>>)
    requires Literals(filter) && PlainLevels(topic) && Matches(filter, topic)
    ensures Substitution(filter, parts) && Flatten(parts) == topic
    decreases |filter|
  {
    if filter == [] {
      parts := [];
    } else if filter == [HASH] {
      parts := [topic];
      assert parts[1..] == [];
      assert Flatten(parts) == topic + [];
    } else {
      var rest := SubstitutionFromMatch(filter[1..], topic[1..]);
      parts := [[topic[0]]] + rest;
      assert parts[1..] == rest;
      forall i | 0 <= i < |filter| ensures Replaces(filter[i], parts[i]) {
        if i > 0 { assert Replaces(filter[1..][i - 1], rest[i - 1]); }
      }
      assert topic == [topic[0]] + topic[1..];
    }
  }

  /** For an accepted filter other than `#`, a nonempty topic string matches exactly when it is
      the filter with each `+` replaced by one plain level and a final `#` by one or more. */
  lemma MatcherSoundAndComplete(filter: string, topic: string)
    requires AcceptedFilter(filter) && filter != HASH
    ensures FilterMatches(filter, topic)
            <==> topic != ""
                 && exists parts: seq<seq<string>> ::
                      && Substitution(Split(filter, '/'), parts)
                      && |Flatten(parts)| >= 1
                      && topic == Join(Flatten(parts), '/')
  {
    var levels := Split(filter, '/');
    JoinSplit(filter, '/');
    if FilterMatches(filter, topic) {
      TopicTokensLegal(topic);
      JoinSplit(topic, '/');
      var parts := SubstitutionFromMatch(levels, Split(topic, '/'));
    }
    if topic != "" {
      forall parts: seq<seq<string>> |
        Substitution(levels, parts) && |Flatten(parts)| >= 1 && topic == Join(Flatten(parts), '/')
        ensures FilterMatches(filter, topic)
      {
        MatchFromSubstitution(levels, parts);
        TopicRoundTrip(topic, Flatten(parts));
        assert Split(topic, '/') == Flatten(parts);
      }
    }
  }

  // ----- The gap to section 4.7 -----------------------------------------------------------

  /** Sections 4.7.1.2 and 4.7.1.3 of MQTT 3.1.1: `+` matches one level, `#` matches the parent
      and any number of child levels. */
  predicate StandardMatches(filter: seq<string>, topic: seq<string>) {
    if filter == [] then topic == []
    else if filter[0] == HASH then true
    else topic != [] && Passes(filter[0], topic[0]) && StandardMatches(filter[1..], topic[1..])
  }

  /** The topic is the parent level named by a filter that ends in `#`. */
  predicate ParentOnly(filter: seq<string>, topic: seq<string>) {
    && |filter| == |topic| + 1
    && filter[|topic|] == HASH
    && Agrees(filter[..|topic|], topic)
  }

  /** The parent case goes level by level. */
  lemma ParentTail(filter: seq<string>, topic: seq<string>)
    requires |filter| > 1 && topic != []
    ensures ParentOnly(filter, topic) <==> Passes(filter[0], topic[0]) && ParentOnly(filter[1..], topic[1..])
  {
    if |filter| == |topic| + 1 {
      var head, tail := filter[..|topic|], filter[1..][..|topic| - 1];
      assert tail == head[1..];
      if Agrees(head, topic) {
        assert Passes(head[0], topic[0]);
        forall i | 0 <= i < |tail| ensures Passes(tail[i], topic[1..][i]) { assert Passes(head[i + 1], topic[i + 1]); }
      }
      if Passes(filter[0], topic[0]) && Agrees(tail, topic[1..]) {
        forall i | 0 <= i < |head| ensures Passes(head[i], topic[i]) {
          if i > 0 { assert Passes(tail[i - 1], topic[1..][i - 1]); }
        }
      }
    }
  }

  lemma {:induction false} StandardGap(filter: seq<string>, topic: seq<string>)
    requires WellFormedFilter(filter) || filter == []
    ensures StandardMatches(filter, topic) <==> Matches(filter, topic) || ParentOnly(filter, topic)
    ensures !(Matches(filter, topic) && ParentOnly(filter, topic))
    decreases |filter|
  {
    if Matches(filter, topic) { MatchesIsShorter(filter, topic); }
    if |filter| > 1 && topic != [] {
      WellFormedTail(filter);
      StandardGap(filter[1..], topic[1..]);
      ParentTail(filter, topic);
    } else if |filter| == 1 {
      assert filter == [filter[0]];
      assert Agrees([], topic) && filter[..0] == [];
    }
  }

  /** Section 4.7.2: a filter that starts with a wildcard does not match a topic that starts with `$`. */
  predicate SystemTopicExcluded(filter: seq<string>, topic: seq<string>)
    requires |filter| > 0 && |topic| > 0
  {
    (filter[0] == HASH || filter[0] == PLUS) && |topic[0]| > 0 && topic[0][0] == '$'
  }

  predicate ConformingMatch(filter: seq<string>, topic: seq<string>)
    requires |filter| > 0 && |topic| > 0
  {
    StandardMatches(filter, topic) && !SystemTopicExcluded(filter, topic)
  }

  /** One topic at a time: away from excluded `$` topics the program agrees with section 4.7
      exactly when the topic is not just the parent of a filter ending in `#`; an excluded topic
      that matches level by level is always a difference. */
  lemma TopicConformance(filter: string, topic: string)
    requires AcceptedFilter(filter) && ValidTopic(topic)
    ensures var f, t := Split(filter, '/'), Split(topic, '/');
            (FilterMatches(filter, topic) == ConformingMatch(f, t))
            <==> if SystemTopicExcluded(f, t) then !Matches(f, t) else !ParentOnly(f, t)
  {
    var f, t := Split(filter, '/'), Split(topic, '/');
    StandardGap(f, t);
    if filter == HASH { LoneWildcard(filter); }
  }

  /** A topic that differs: every wildcard level of the filter replaced by `$`. */
  function Fill(filter: seq<string>): seq<string> {
    if filter == [] then []
    else [if filter[0] == HASH || filter[0] == PLUS then "$" else filter[0]] + Fill(filter[1..])
  }

  lemma {:induction false} FillAgrees(filter: seq<string>)
    requires Literals(filter)
    ensures |Fill(filter)| == |filter| && PlainLevels(Fill(filter))
    ensures forall i :: 0 <= i < |filter| && filter[i] != HASH ==> Passes(filter[i], Fill(filter)[i])
    ensures Matches(filter, Fill(filter))
    decreases |filter|
  {
    if filter != [] {
      FillAgrees(filter[1..]);
      assert Fill(filter)[1..] == Fill(filter[1..]);
    }
  }

  /** Plain levels that are not one empty level are the levels of a valid topic. */
  lemma LevelsOfTopic(levels: seq<string>)
    requires |levels| > 0 && PlainLevels(levels) && levels != [""]
    ensures ValidTopic(Join(levels, '/')) && Split(Join(levels, '/'), '/') == levels
  {
    var topic := Join(levels, '/');
    assert topic != "" by { if |levels| == 1 { assert levels == [levels[0]]; } }
    TopicRoundTrip(topic, levels);
    assert TopicTokens(topic) == levels;
  }

  /** A caller can see it on the filter: it starts with no wildcard, and it ends in `#` only as
      `/#`, whose parent is no topic. */
  predicate ConformingFilter(filter: seq<string>)
    requires |filter| > 0
  {
    filter[0] != HASH && filter[0] != PLUS && (filter[|filter| - 1] == HASH ==> filter == ["", HASH])
  }

  /** The topic on which a filter that is not conforming differs from section 4.7. */
  ghost function DifferingTopic(filter: seq<string>): seq<string>
    requires |filter| > 0
  {
    if filter[0] == HASH || filter[0] == PLUS then Fill(filter) else Fill(filter[..|filter| - 1])
  }

  lemma FilterLevels(filter: string)
    requires AcceptedFilter(filter)
    ensures Literals(Split(filter, '/'))
  {
    JoinSplit(filter, '/');
  }

  lemma WildcardStartDiffers(filter: string)
    requires AcceptedFilter(filter) && (Split(filter, '/')[0] == HASH || Split(filter, '/')[0] == PLUS)
    ensures var topic := Join(DifferingTopic(Split(filter, '/')), '/');
            ValidTopic(topic) && FilterMatches(filter, topic) != ConformingMatch(Split(filter, '/'), Split(topic, '/'))
  {
    var f := Split(filter, '/');
    FilterLevels(filter);
    FillAgrees(f);
    LevelsOfTopic(Fill(f));
    TopicConformance(filter, Join(Fill(f), '/'));
  }

  lemma ParentDiffers(filter: string)
    requires AcceptedFilter(filter)
    requires var f := Split(filter, '/');
             f[0] != HASH && f[0] != PLUS && f[|f| - 1] == HASH && f != ["", HASH]
    ensures var topic := Join(DifferingTopic(Split(filter, '/')), '/');
            ValidTopic(topic) && FilterMatches(filter, topic) != ConformingMatch(Split(filter, '/'), Split(topic, '/'))
  {
    var f := Split(filter, '/');
    var parent := f[..|f| - 1];
    FilterLevels(filter);
    FillAgrees(parent);
    assert f == parent + [HASH];
    assert Fill(parent)[0] == f[0];
    assert Fill(parent) != [""] by { if |parent| == 1 { assert parent == [f[0]]; } }
    LevelsOfTopic(Fill(parent));
    assert f[..|Fill(parent)|] == parent;
    assert ParentOnly(f, Fill(parent));
    TopicConformance(filter, Join(Fill(parent), '/'));
  }

  /** Where the program agrees with section 4.7: on every topic, exactly for the filters that start
      with no wildcard and do not end in `#`, and for `/#`. */
  lemma ConformanceCondition(filter: string)
    requires AcceptedFilter(filter)
    ensures (forall topic: string :: ValidTopic(topic)
               ==> FilterMatches(filter, topic) == ConformingMatch(Split(filter, '/'), Split(topic, '/')))
            <==> ConformingFilter(Split(filter, '/'))
  {
    var f := Split(filter, '/');
    if ConformingFilter(f) {
      forall topic: string | ValidTopic(topic)
        ensures FilterMatches(filter, topic) == ConformingMatch(f, Split(topic, '/'))
      {
        TopicConformance(filter, topic);
        NoEmptyParent(topic);
      }
    } else if f[0] == HASH || f[0] == PLUS {
      WildcardStartDiffers(filter);
    } else {
      ParentDiffers(filter);
    }
  }

  /** The parent of `/#` would be the one empty level, which no topic has. */
  lemma NoEmptyParent(topic: string)
    requires ValidTopic(topic)
    ensures !ParentOnly(["", HASH], Split(topic, '/'))
  {
    var t := Split(topic, '/');
    JoinSplit(topic, '/');
    assert ["", HASH][..1][0] == "";
    if |t| == 1 { assert t == [t[0]]; }
  }

  /** `a/#` does not match `a`, and `#` does match `$S`: the two ways to differ both occur. */
  lemma GapWitnesses()
    ensures !FilterMatches("a/#", "a") && StandardMatches(Split("a/#", '/'), Split("a", '/'))
    ensures FilterMatches("#", "$S") && !ConformingMatch(Split("#", '/'), Split("$S", '/'))
  {
    SplitAt("a/#", '/', 1);
    assert "a/#"[2..] == "#" && "a/#"[..1] == "a";
    SplitAt("#", '/', 1);
    SplitAt("a", '/', 1);
    SplitAt("$S", '/', 2);
    var f, t := Split("a/#", '/'), Split("a", '/');
    assert f == ["a", "#"] && t == ["a"];
    assert f[1..] == ["#"] && t[1..] == [];
    assert Split("$S", '/')[0][0] == '$';
  }

  /** When a filter agrees with the topic on all its levels and the topic has more, the program
      reads one level past the end of the filter. Such a filter has no `#`, and the answer that is
      meant is "no match", by the code's relation and by the standard's. */
  lemma PastEndIsNoMatch(filter: seq<string>, topic: seq<string>)
    requires WellFormedFilter(filter) && TopicLevels(topic) && ReadsPastEnd(filter, topic)
    ensures !Matches(filter, topic) && !StandardMatches(filter, topic)
    ensures HASH !in filter
  {
    forall i | 0 <= i < |filter| ensures filter[i] != HASH {
      assert Passes(filter[i], topic[i]);
      assert WildcardFree(topic[i]);
    }
    assert filter[..|filter|] == filter;
    MatchesAfter(filter, topic, |filter|);
    StandardGap(filter, topic);
  }

  /** Some topic makes a filter's comparison read past its end exactly when the filter has no `#`;
      filling the wildcards and adding a level gives such a topic. */
  lemma PastEndCondition(filter: string)
    requires AcceptedFilter(filter)
    ensures (exists topic: string :: StringReadsPastEnd(filter, topic)) <==> HASH !in Split(filter, '/')
  {
    var f := Split(filter, '/');
    forall topic: string | StringReadsPastEnd(filter, topic) ensures HASH !in f {
      TopicTokensLegal(topic);
      PastEndIsNoMatch(f, Split(topic, '/'));
    }
    if HASH !in f {
      var levels := Fill(f) + ["$"];
      FilterLevels(filter);
      FillAgrees(f);
      assert PlainLevels(["$"]);
      LevelsOfTopic(levels);
      forall i | 0 <= i < |f| ensures Passes(f[i], levels[i]) { assert f[i] in f; }
      if filter == HASH { LoneWildcard(filter); }
      assert StringReadsPastEnd(filter, Join(levels, '/'));
    }
  }

  /** The filter `a` and the topic `a/b`: matching them reads past the end of the filter. */
  lemma PastEndWitness()
    ensures StringReadsPastEnd("a", "a/b") && !FilterMatches("a", "a/b")
  {
    SplitAt("a", '/', 1);
    SplitAt("a/b", '/', 1);
    assert "a/b"[2..] == "b" && "a/b"[..1] == "a";
    SplitAt("b", '/', 1);
    var f, t := Split("a", '/'), Split("a/b", '/');
    assert f == ["a"] && t == ["a", "b"];
    assert f[1..] == [] && t[1..] == ["b"];
  }
}
