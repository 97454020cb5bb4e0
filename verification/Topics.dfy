/** The topic filter language: tokenizers and level-by-level comparison.
    Methods follow the program's loops; each is proved against a specification predicate, and
    the lemmas say what those predicates mean. */
module Topics {
  import opened Text

  const HASH := "#"
  const PLUS := "+"
  const SLASH := "/"

  // ----- What the tokenizers accept -----------------------------------------------------

  predicate WildcardFree(level: string) { '#' !in level && '+' !in level }

  predicate LegalLevel(level: string) {
    level == HASH || level == PLUS || WildcardFree(level)
  }

  predicate WellFormedFilter(filter: seq<string>) {
    && |filter| > 0
    && forall i :: 0 <= i < |filter| ==> LegalLevel(filter[i]) && (filter[i] == HASH ==> i == |filter| - 1)
  }

  /** The strings the filter tokenizer turns into a nonempty list. */
  predicate AcceptedFilter(s: string) { s != "" && WellFormedFilter(Split(s, '/')) }

  /** The strings the topic tokenizer turns into a nonempty list. */
  predicate ValidTopic(s: string) { s != "" && WildcardFree(s) }

  ghost predicate TopicLevels(topic: seq<string>) {
    |topic| > 0 && forall i :: 0 <= i < |topic| ==> WildcardFree(topic[i])
  }

  function FilterTokens(s: string): seq<string> { if AcceptedFilter(s) then Split(s, '/') else [] }

  function TopicTokens(s: string): seq<string> { if ValidTopic(s) then Split(s, '/') else [] }

  lemma TopicTokensLegal(s: string)
    requires ValidTopic(s)
    ensures TopicLevels(Split(s, '/')) && Free(Split(s, '/'), '/')
  {
    JoinSplit(s, '/');
    CharsOfSplit(s, '/', '#');
    CharsOfSplit(s, '/', '+');
  }

  // ----- Tokenizers ---------------------------------------------------------------------

  /** The levels still to be read when a tokenizer stands at `first`. */
  ghost function Remaining(s: string, first: nat): seq<string>
    requires first <= |s| + 1
  {
    if first <= |s| then Split(s[first..], '/') else []
  }

  /** One step of a tokenizer: the piece between `first` and the next slash is the next level. */
  lemma NextLevel(s: string, first: nat, second: nat)
    requires first <= |s| && FirstAt(s, '/', first, second)
    ensures Remaining(s, first) == [s[first..second]] + Remaining(s, second + 1)
    ensures second < |s| ==> |Remaining(s, second + 1)| > 0
  {
    var rest, k := s[first..], second - first;
    assert rest[..k] == s[first..second];
    assert '/' !in rest[..k];
    assert k < |rest| ==> rest[k] == '/';
    SplitAt(rest, '/', k);
    if second == |s| {
      assert rest == s[first..second];
    } else {
      assert rest[k + 1..] == s[second + 1..];
    }
  }

  /** A tokenizer of `s` at `first` has read `tokens`, and the next slash is at `second`. */
  ghost predicate ReadTo(s: string, tokens: seq<string>, first: nat) {
    first <= |s| + 1 && Split(s, '/') == tokens + Remaining(s, first)
  }

  lemma ReadStart(s: string)
    ensures ReadTo(s, [], 0)
  {
    assert s[0..] == s;
  }

  lemma ReadLevel(s: string, tokens: seq<string>, first: nat, second: nat, token: string)
    requires first <= |s| && ReadTo(s, tokens, first) && FirstAt(s, '/', first, second) && token == s[first..second]
    ensures ReadTo(s, tokens + [token], second + 1)
  {
    NextLevel(s, first, second);
  }

  lemma ReadAll(s: string, tokens: seq<string>)
    requires ReadTo(s, tokens, |s| + 1)
    ensures tokens == Split(s, '/')
  {}

  /** The two searches for a wildcard character inside a level or a topic. */
  method ContainsWildcard(s: string) returns (found: bool)
    ensures found <==> !WildcardFree(s)
  {
    var hash := FindFirstOf(s, '#', 0);
    var plus := FindFirstOf(s, '+', 0);
    found := hash != |s| || plus != |s|;
  }

  /** The shortcut for a lone wildcard agrees with the general loop. */
  lemma LoneWildcard(s: string)
    requires s == HASH || s == PLUS
    ensures FilterTokens(s) == [s]
  {
    SplitAt(s, '/', 1);
  }

  ghost predicate LegalPrefix(tokens: seq<string>, levels: seq<string>) {
    forall i :: 0 <= i < |tokens| ==> LegalLevel(tokens[i]) && (tokens[i] == HASH ==> i == |levels| - 1)
  }

  /** The test the loop makes on a level: it decides whether the levels read so far can still be
      the start of a well-formed filter. */
  lemma ExtendPrefix(tokens: seq<string>, token: string, rest: seq<string>)
    requires LegalPrefix(tokens, tokens + ([token] + rest))
    ensures LegalLevel(token) && (token == HASH ==> rest == [])
            ==> LegalPrefix(tokens + [token], tokens + ([token] + rest))
    ensures WellFormedFilter(tokens + ([token] + rest)) ==> LegalLevel(token) && (token == HASH ==> rest == [])
  {
    assert (tokens + ([token] + rest))[|tokens|] == token;
  }

  ghost predicate FilterReadTo(s: string, tokens: seq<string>, first: nat) {
    ReadTo(s, tokens, first) && LegalPrefix(tokens, Split(s, '/'))
  }

  predicate LevelAccepted(token: string, last: bool) { LegalLevel(token) && (token == HASH ==> last) }

  /** The two tests of the loop. */
  method CheckLevel(token: string, last: bool) returns (accepted: bool)
    ensures accepted <==> LevelAccepted(token, last)
  {
    if token == HASH && !last { return false; }
    var wildcard := ContainsWildcard(token);
    if token != HASH && token != PLUS && wildcard { return false; }
    accepted := true;
  }

  /** The two tests decide whether the reading goes on. */
  lemma ReadFilterLevel(s: string, tokens: seq<string>, first: nat, second: nat, token: string)
    requires first <= |s| && FilterReadTo(s, tokens, first)
    requires FirstAt(s, '/', first, second) && token == s[first..second]
    ensures if LevelAccepted(token, second == |s|) then FilterReadTo(s, tokens + [token], second + 1)
            else !WellFormedFilter(Split(s, '/'))
  {
    ReadLevel(s, tokens, first, second, token);
    NextLevel(s, first, second);
    ExtendPrefix(tokens, token, Remaining(s, second + 1));
  }

  lemma ReadWholeFilter(s: string, tokens: seq<string>)
    requires FilterReadTo(s, tokens, |s| + 1)
    ensures tokens == Split(s, '/') && WellFormedFilter(tokens)
  {}

  /** The loop of the filter tokenizer. */
  method ReadFilterLevels(topicFilter: string) returns (tokens: seq<string>)
    ensures tokens == if WellFormedFilter(Split(topicFilter, '/')) then Split(topicFilter, '/') else []
  {
    tokens := [];
    var first := 0;
    ReadStart(topicFilter);
    while first <= |topicFilter|
      invariant first <= |topicFilter| + 1
      invariant FilterReadTo(topicFilter, tokens, first)
    {
      var second := FindFirstOf(topicFilter, '/', first);
      var token := topicFilter[first..second];
      ReadFilterLevel(topicFilter, tokens, first, second, token);
      var accepted := CheckLevel(token, second == |topicFilter|);
      if !accepted { return []; }
      tokens := tokens + [token];
      first := second + 1;
    }
    ReadWholeFilter(topicFilter, tokens);
  }

  method TokenizeTopicFilter(topicFilter: string) returns (tokens: seq<string>)
    ensures tokens == FilterTokens(topicFilter)
  {
    if topicFilter == "" { return []; }
    if topicFilter == HASH || topicFilter == PLUS {
      LoneWildcard(topicFilter);
      return [topicFilter];
    }
    tokens := ReadFilterLevels(topicFilter);
  }

  /** The loop of the topic tokenizer. */
  method SplitLevels(topic: string) returns (tokens: seq<string>)
    ensures tokens == Split(topic, '/')
  {
    tokens := [];
    var first := 0;
    ReadStart(topic);
    while first <= |topic|
      invariant first <= |topic| + 1
      invariant ReadTo(topic, tokens, first)
    {
      var second := FindFirstOf(topic, '/', first);
      var token := topic[first..second];
      ReadLevel(topic, tokens, first, second, token);
      tokens := tokens + [token];
      first := second + 1;
    }
    ReadAll(topic, tokens);
  }

  method TokenizeTopic(topic: string) returns (tokens: seq<string>)
    ensures tokens == TopicTokens(topic)
  {
    if topic == "" { return []; }
    var wildcard := ContainsWildcard(topic);
    if wildcard { return []; }
    tokens := SplitLevels(topic);
  }

  /** Joining the tokens of an accepted filter gives the filter back, and every well-formed list
      of slash-free levels with a nonempty join is what its join tokenizes to. */
  lemma FilterRoundTrip(s: string, levels: seq<string>)
    ensures FilterTokens(s) != [] ==> Join(FilterTokens(s), '/') == s
    ensures WellFormedFilter(levels) && Free(levels, '/') && Join(levels, '/') != ""
            ==> FilterTokens(Join(levels, '/')) == levels
  {
    JoinSplit(s, '/');
    if WellFormedFilter(levels) && Free(levels, '/') { SplitJoin(levels, '/'); }
  }

  lemma TopicRoundTrip(s: string, levels: seq<string>)
    ensures TopicTokens(s) != [] ==> Join(TopicTokens(s), '/') == s
    ensures TopicLevels(levels) && Free(levels, '/') && Join(levels, '/') != ""
            ==> TopicTokens(Join(levels, '/')) == levels
  {
    JoinSplit(s, '/');
    if TopicLevels(levels) && Free(levels, '/') {
      var joined := Join(levels, '/');
      SplitJoin(levels, '/');
      CharsOfSplit(joined, '/', '#');
      CharsOfSplit(joined, '/', '+');
    }
  }

  // ----- Acceptance at character level ---------------------------------------------------

  predicate WholeLevel(s: string, i: nat)
    requires i < |s|
  {
    (i == 0 || s[i - 1] == '/') && (i == |s| - 1 || s[i + 1] == '/')
  }

  predicate WildcardPlaced(s: string, i: nat)
    requires i < |s|
  {
    && (s[i] == '+' ==> WholeLevel(s, i))
    && (s[i] == '#' ==> WholeLevel(s, i) && i == |s| - 1)
  }

  ghost predicate WildcardsPlaced(s: string) {
    forall i :: 0 <= i < |s| ==> WildcardPlaced(s, i)
  }

  lemma SingleLevelPlaced(s: string)
    requires '/' !in s
    ensures WildcardsPlaced(s) <==> LegalLevel(s)
  {
    if WildcardsPlaced(s) && !WildcardFree(s) {
      var i :| 0 <= i < |s| && (s[i] == '#' || s[i] == '+');
      assert WildcardPlaced(s, i);
      assert i == 0 && |s| == 1;
    }
  }

  lemma TailPlaced(s: string, k: nat)
    requires k < |s| && s[k] == '/'
    ensures WildcardsPlaced(s[k + 1..]) <==> forall j :: k < j < |s| ==> WildcardPlaced(s, j)
  {
    var rest := s[k + 1..];
    forall i | 0 <= i < |rest| ensures WildcardPlaced(rest, i) <==> WildcardPlaced(s, k + 1 + i) {
      assert rest[i] == s[k + 1 + i];
    }
    if WildcardsPlaced(rest) {
      forall j | k < j < |s| ensures WildcardPlaced(s, j) { assert WildcardPlaced(rest, j - k - 1); }
    }
  }

  lemma HeadCharPlaced(s: string, k: nat, i: nat)
    requires i < k < |s| && s[k] == '/' && '/' !in s[..k]
    ensures WildcardPlaced(s, i) <==> s[i] != '#' && (s[i] == '+' ==> k == 1)
  {
    if i > 0 { assert s[i - 1] == s[..k][i - 1]; }
    if i + 1 < k { assert s[i + 1] == s[..k][i + 1]; }
  }

  lemma HeadLevelPlaced(s: string, k: nat)
    requires k < |s| && s[k] == '/' && '/' !in s[..k]
    ensures (forall i :: 0 <= i < k ==> WildcardPlaced(s, i)) <==> LegalLevel(s[..k]) && s[..k] != HASH
  {
    var head := s[..k];
    forall i | 0 <= i < k ensures WildcardPlaced(s, i) <==> head[i] != '#' && (head[i] == '+' ==> k == 1) {
      HeadCharPlaced(s, k, i);
    }
    if forall i :: 0 <= i < k ==> WildcardPlaced(s, i) {
      assert forall i :: 0 <= i < k ==> head[i] != '#' && (head[i] == '+' ==> k == 1);
      assert k == 1 ==> head == [head[0]];
    }
  }

  /** Cutting at the first slash: the head must be a legal level other than `#`. */
  lemma HeadPlaced(s: string, k: nat)
    requires k < |s| && s[k] == '/' && '/' !in s[..k]
    ensures WildcardsPlaced(s) <==> LegalLevel(s[..k]) && s[..k] != HASH && WildcardsPlaced(s[k + 1..])
  {
    TailPlaced(s, k);
    HeadLevelPlaced(s, k);
    assert WildcardPlaced(s, k);
    if (forall i :: 0 <= i < k ==> WildcardPlaced(s, i)) && (forall j :: k < j < |s| ==> WildcardPlaced(s, j)) {
      forall i | 0 <= i < |s| ensures WildcardPlaced(s, i) {}
    }
  }

  /** A filter is accepted exactly when it is nonempty, every `+` fills a whole level, and any `#`
      fills a whole level that is the last one. */
  lemma {:induction false} AcceptanceByCharacter(s: string)
    ensures AcceptedFilter(s) <==> s != "" && WildcardsPlaced(s)
  {
    PlacedIffWellFormed(s);
  }

  lemma {:induction false} PlacedIffWellFormed(s: string)
    ensures WildcardsPlaced(s) <==> WellFormedFilter(Split(s, '/'))
    decreases |s|
  {
    var k := IndexFrom(s, '/', 0);
    var levels := Split(s, '/');
    assert s[0..k] == s[..k];
    if k == |s| {
      assert s[..k] == s;
      SingleLevelPlaced(s);
      assert levels == [s];
      assert WellFormedFilter([s]) <==> LegalLevel(s) by { assert [s][0] == s; }
    } else {
      PlacedIffWellFormed(s[k + 1..]);
      HeadPlaced(s, k);
      WellFormedTail(levels);
      assert levels[1..] == Split(s[k + 1..], '/');
    }
  }

  lemma WellFormedTail(filter: seq<string>)
    requires |filter| > 1
    ensures WellFormedFilter(filter)
            <==> LegalLevel(filter[0]) && filter[0] != HASH && WellFormedFilter(filter[1..])
  {
    var rest := filter[1..];
    if WellFormedFilter(rest) && LegalLevel(filter[0]) && filter[0] != HASH {
      forall i | 0 <= i < |filter|
        ensures LegalLevel(filter[i]) && (filter[i] == HASH ==> i == |filter| - 1)
      {
        if i > 0 { assert filter[i] == rest[i - 1]; }
      }
    }
    if WellFormedFilter(filter) {
      forall i | 0 <= i < |rest|
        ensures LegalLevel(rest[i]) && (rest[i] == HASH ==> i == |rest| - 1)
      {
        assert rest[i] == filter[i + 1];
      }
    }
  }

  // ----- Matching ------------------------------------------------------------------------

  predicate Passes(level: string, topicLevel: string) { level == topicLevel || level == PLUS }

  /** The matching relation on levels: `+` stands for one level, a final `#` for one or more. */
  predicate Matches(filter: seq<string>, topic: seq<string>) {
    if filter == [] then topic == []
    else if filter == [HASH] then topic != []
    else topic != [] && Passes(filter[0], topic[0]) && Matches(filter[1..], topic[1..])
  }

  /** Every level of the filter agrees with the topic level at the same place. */
  predicate Agrees(filter: seq<string>, topic: seq<string>) {
    |filter| <= |topic| && forall i :: 0 <= i < |filter| ==> Passes(filter[i], topic[i])
  }

  /** The whole filter was matched and the topic is longer: the comparison then reads one level
      past the end of the filter. */
  predicate ReadsPastEnd(filter: seq<string>, topic: seq<string>) {
    |filter| < |topic| && Agrees(filter, topic)
  }

  lemma {:induction false} MatchesIsShorter(filter: seq<string>, topic: seq<string>)
    requires Matches(filter, topic)
    ensures |filter| <= |topic|
    decreases |filter|
  {
    if filter != [] && filter != [HASH] { MatchesIsShorter(filter[1..], topic[1..]); }
  }

  lemma {:induction false} MatchesAfter(filter: seq<string>, topic: seq<string>, i: nat)
    requires TopicLevels(topic) && i <= |filter| && Agrees(filter[..i], topic)
    ensures Matches(filter, topic) <==> Matches(filter[i..], topic[i..])
    decreases i
  {
    if i == 0 {
      assert filter[0..] == filter && topic[0..] == topic;
    } else {
      assert filter[..i][0] == filter[0];
      if i > 1 {
        assert TopicLevels(topic[1..]);
        forall j | 0 <= j < i - 1 ensures Passes(filter[1..][..i - 1][j], topic[1..][j]) {
          assert filter[1..][..i - 1][j] == filter[..i][j + 1];
        }
        MatchesAfter(filter[1..], topic[1..], i - 1);
      }
      assert filter[1..][i - 1..] == filter[i..] && topic[1..][i - 1..] == topic[i..];
    }
  }

  /** Level-by-level comparison. `pastEnd` reports the runs in which the program evaluates
      `filter[i]` with `i` equal to the number of filter levels; they are answered "no match". */
  method CompareTopics(filter: seq<string>, topic: seq<string>) returns (matched: bool, pastEnd: bool)
    requires WellFormedFilter(filter) && TopicLevels(topic)
    ensures matched <==> Matches(filter, topic)
    ensures pastEnd <==> ReadsPastEnd(filter, topic)
  {
    if |filter| == 1 && filter[0] == HASH { return true, false; }
    if |filter| > |topic| {
      if Matches(filter, topic) { MatchesIsShorter(filter, topic); }
      return false, false;
    }
    var i := 0;
    while i < |filter|
      invariant 0 <= i <= |filter|
      invariant Agrees(filter[..i], topic)
    {
      if filter[i] == topic[i] || filter[i] == PLUS {
        i := i + 1;
      } else {
        break;
      }
    }
    MatchesAfter(filter, topic, i);
    assert i == |filter| ==> filter[..i] == filter;
    if i < |topic| {
      if i == |filter| { return false, true; }
      if filter[i] != HASH { return false, false; }
      assert filter[i..] == [HASH];
    }
    return true, false;
  }

  /** A string-level match as the program decides it. */
  predicate FilterMatches(filter: string, topic: string) {
    filter == HASH
    || (AcceptedFilter(filter) && ValidTopic(topic) && Matches(Split(filter, '/'), Split(topic, '/')))
  }

  /** Matching the two strings makes the comparison read past the end of the filter. */
  predicate StringReadsPastEnd(filter: string, topic: string) {
    && filter != HASH && AcceptedFilter(filter) && ValidTopic(topic)
    && ReadsPastEnd(Split(filter, '/'), Split(topic, '/'))
  }

  method MatchesFilter(filter: string, topic: string) returns (matched: bool, pastEnd: bool)
    ensures matched <==> FilterMatches(filter, topic)
    ensures pastEnd <==> StringReadsPastEnd(filter, topic)
  {
    if filter == HASH { return true, false; }
    var filterTokens := TokenizeTopicFilter(filter);
    var topicTokens := TokenizeTopic(topic);
    if filterTokens == [] || topicTokens == [] { return false, false; }
    TopicTokensLegal(topic);
    matched, pastEnd := CompareTopics(filterTokens, topicTokens);
  }

  method ValidTopicFilter(topicFilter: string) returns (valid: bool)
    ensures valid <==> AcceptedFilter(topicFilter)
    ensures valid <==> topicFilter != "" && WildcardsPlaced(topicFilter)
  {
    AcceptanceByCharacter(topicFilter);
    if topicFilter == HASH || topicFilter == PLUS || topicFilter == SLASH { return true; }
    var tokens := TokenizeTopicFilter(topicFilter);
    return tokens != [];
  }
}
