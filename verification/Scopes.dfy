/** Precompiled adapter scopes. */
module Scopes {
  import opened Text
  import opened Topics

  datatype Scope = Scope(filters: seq<seq<string>>, isGlobalWildcard: bool)

  datatype ScopeResult = Built(scope: Scope) | InvalidTopicFilter(filter: string)

  const GLOBAL_SCOPE := Scope([], true)

  /** Some compiled filter admits the topic. */
  predicate Includes(scope: Scope, topic: string) {
    || scope.isGlobalWildcard
    || (ValidTopic(topic)
        && exists i :: 0 <= i < |scope.filters| && Matches(scope.filters[i], Split(topic, '/')))
  }

  predicate WellFormed(scope: Scope) {
    forall i :: 0 <= i < |scope.filters| ==> WellFormedFilter(scope.filters[i])
  }

  /** The simple form: some configured filter string matches. */
  ghost predicate SomeFilterMatches(filters: seq<string>, topic: string) {
    exists i :: 0 <= i < |filters| && FilterMatches(filters[i], topic)
  }

  /** The first entry that ends the construction: a `#`, or an invalid filter. */
  ghost predicate FirstStop(filters: seq<string>, k: int) {
    && 0 <= k <= |filters|
    && (forall i :: 0 <= i < k ==> AcceptedFilter(filters[i]) && filters[i] != HASH)
    && (k < |filters| ==> filters[k] == HASH || !AcceptedFilter(filters[k]))
  }

  /** The constructor from a list of filters. It throws exactly when an invalid filter comes
      before the first `#`, naming that filter; otherwise the compiled scope admits exactly the
      topics that some configured filter matches. */
  method FromList(filters: seq<string>) returns (r: ScopeResult)
    ensures r.InvalidTopicFilter?
            <==> exists k :: FirstStop(filters, k) && k < |filters| && filters[k] != HASH
    ensures r.InvalidTopicFilter? ==> exists k :: FirstStop(filters, k) && k < |filters| && filters[k] == r.filter
    ensures r.Built? ==> WellFormed(r.scope)
    ensures r.Built? ==> forall topic: string :: Includes(r.scope, topic) <==> SomeFilterMatches(filters, topic)
  {
    var compiled: seq<seq<string>> := [];
    var n := 0;
    while n < |filters|
      invariant 0 <= n <= |filters| && |compiled| == n
      invariant forall i :: 0 <= i < n ==> AcceptedFilter(filters[i]) && filters[i] != HASH
      invariant forall i :: 0 <= i < n ==> compiled[i] == Split(filters[i], '/')
    {
      if filters[n] == HASH {
        assert FirstStop(filters, n);
        StopIsUnique(filters, n);
        GlobalMatches(filters, n);
        return Built(Scope(compiled, true));
      }
      var tokens := TokenizeTopicFilter(filters[n]);
      if tokens == [] {
        assert FirstStop(filters, n);
        return InvalidTopicFilter(filters[n]);
      }
      compiled := compiled + [tokens];
      n := n + 1;
    }
    assert FirstStop(filters, n);
    StopIsUnique(filters, n);
    r := Built(Scope(compiled, false));
    forall topic: string ensures Includes(r.scope, topic) <==> SomeFilterMatches(filters, topic) {
      CompiledMatches(filters, compiled, topic);
    }
  }

  lemma StopIsUnique(filters: seq<string>, n: int)
    requires FirstStop(filters, n)
    ensures forall k :: FirstStop(filters, k) ==> k == n
  {}

  lemma GlobalMatches(filters: seq<string>, n: nat)
    requires n < |filters| && filters[n] == HASH
    ensures forall topic: string :: SomeFilterMatches(filters, topic)
  {
    forall topic: string ensures SomeFilterMatches(filters, topic) {
      assert FilterMatches(filters[n], topic);
    }
  }

  lemma CompiledMatches(filters: seq<string>, compiled: seq<seq<string>>, topic: string)
    requires |compiled| == |filters|
    requires forall i :: 0 <= i < |filters| ==> AcceptedFilter(filters[i]) && filters[i] != HASH
    requires forall i :: 0 <= i < |filters| ==> compiled[i] == Split(filters[i], '/')
    ensures Includes(Scope(compiled, false), topic) <==> SomeFilterMatches(filters, topic)
  {
    if ValidTopic(topic) && exists i :: 0 <= i < |compiled| && Matches(compiled[i], Split(topic, '/')) {
      var i :| 0 <= i < |compiled| && Matches(compiled[i], Split(topic, '/'));
      assert FilterMatches(filters[i], topic);
    }
  }

  /** The constructor from one filter string behaves as the list constructor on that one filter. */
  method FromString(filter: string) returns (r: ScopeResult)
    ensures r.InvalidTopicFilter? <==> !AcceptedFilter(filter)
    ensures r.InvalidTopicFilter? ==> r.filter == filter
    ensures r.Built? ==> WellFormed(r.scope)
    ensures r.Built? ==> forall topic: string :: Includes(r.scope, topic) <==> FilterMatches(filter, topic)
  {
    if filter == HASH {
      LoneWildcard(filter);
      return Built(GLOBAL_SCOPE);
    }
    var tokens := TokenizeTopicFilter(filter);
    if tokens == [] { return InvalidTopicFilter(filter); }
    r := Built(Scope([tokens], false));
    forall topic: string ensures Includes(r.scope, topic) <==> FilterMatches(filter, topic) {
      assert r.scope.filters[0] == tokens;
    }
  }

  /** The scan reaches filter `i` of the scope and reads past its end. */
  predicate ScanReadsPastEnd(filters: seq<seq<string>>, topic: seq<string>, i: int) {
    && 0 <= i < |filters| && ReadsPastEnd(filters[i], topic)
    && forall j :: 0 <= j < i ==> !Matches(filters[j], topic)
  }

  /** The scan of the first `n` filters reads past the end of one. */
  ghost predicate ScannedPastEnd(filters: seq<seq<string>>, topic: seq<string>, n: nat) {
    exists j :: j < n && ScanReadsPastEnd(filters, topic, j)
  }

  /** Nothing after the first matching filter is scanned. */
  lemma ScanStops(filters: seq<seq<string>>, topic: seq<string>, i: nat)
    requires i < |filters| && Matches(filters[i], topic)
    ensures ScannedPastEnd(filters, topic, |filters|) <==> ScannedPastEnd(filters, topic, i + 1)
  {
    if j :| j < |filters| && ScanReadsPastEnd(filters, topic, j) { assert j < i + 1; }
  }

  /** The membership test, with its early exit. `pastEnd` reports the scans that read past the end
      of a filter: one that stands before the first matching filter. */
  method IncludesTopic(scope: Scope, topic: string) returns (included: bool, pastEnd: bool)
    requires WellFormed(scope)
    ensures included <==> Includes(scope, topic)
    ensures pastEnd <==> !scope.isGlobalWildcard && ValidTopic(topic)
                         && ScannedPastEnd(scope.filters, Split(topic, '/'), |scope.filters|)
  {
    if scope.isGlobalWildcard { return true, false; }
    var topicTokens := TokenizeTopic(topic);
    if topicTokens == [] { return false, false; }
    TopicTokensLegal(topic);
    included, pastEnd := false, false;
    for i := 0 to |scope.filters|
      invariant !included
      invariant forall j :: 0 <= j < i ==> !Matches(scope.filters[j], topicTokens)
      invariant pastEnd <==> ScannedPastEnd(scope.filters, topicTokens, i)
    {
      var read;
      included, read := CompareTopics(scope.filters[i], topicTokens);
      assert read ==> ScanReadsPastEnd(scope.filters, topicTokens, i);
      pastEnd := pastEnd || read;
      assert pastEnd <==> ScannedPastEnd(scope.filters, topicTokens, i + 1);
      if included {
        ScanStops(scope.filters, topicTokens, i);
        break;
      }
    }
  }
}
