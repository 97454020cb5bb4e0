/** An MQTT adapter's broker and the queue that all adapters share, as objects updated by their
    handlers. `sent` is the log of the calls of `publish` on the broker's connections. */
module Brokers {
  import opened Mqtt
  import opened Subscriptions
  import opened Container
  import opened Topics
  import opened Scopes
  import opened Publications

  datatype Metadata = Metadata(ip: nat, port: nat, clientId: string, version: Version)

  /** What indexing the metadata map with an absent connection creates. */
  const DEFAULT_METADATA := Metadata(0, 0, "", V3)

  function MetadataOf(meta: map<Connection, Metadata>, con: Connection): Metadata {
    if con in meta then meta[con] else DEFAULT_METADATA
  }

  /** Indexing the metadata map creates the entry if it is absent. */
  function Touch(meta: map<Connection, Metadata>, con: Connection): map<Connection, Metadata> {
    if con in meta then meta else meta[con := DEFAULT_METADATA]
  }

  /** The metadata map after the recipients of some deliveries were looked up for the log. */
  function TouchedBy(meta: map<Connection, Metadata>, ds: seq<Delivery>): map<Connection, Metadata> {
    if ds == [] then meta else Touch(TouchedBy(meta, ds[..|ds| - 1]), ds[|ds| - 1].con)
  }

  /** Looking recipients up keeps every entry and creates one for each recipient that has none:
      a connection that is being closed can so get its entry back. */
  lemma {:induction false} LookupsOnlyAdd(meta: map<Connection, Metadata>, ds: seq<Delivery>)
    ensures forall c :: c in meta ==> c in TouchedBy(meta, ds) && TouchedBy(meta, ds)[c] == meta[c]
    ensures forall c :: c in TouchedBy(meta, ds) <==> c in meta || exists i :: 0 <= i < |ds| && ds[i].con == c
    decreases |ds|
  {
    if ds != [] {
      var n := |ds| - 1;
      LookupsOnlyAdd(meta, ds[..n]);
      assert forall i :: 0 <= i < n ==> ds[..n][i] == ds[i];
      forall c | exists i :: 0 <= i < |ds| && ds[i].con == c ensures c in TouchedBy(meta, ds) {
        var i :| 0 <= i < |ds| && ds[i].con == c;
        if i < n { assert ds[..n][i].con == c; }
      }
    }
  }

  lemma {:induction false} TouchedByJoin(meta: map<Connection, Metadata>, a: seq<Delivery>, b: seq<Delivery>)
    ensures TouchedBy(meta, a + b) == TouchedBy(TouchedBy(meta, a), b)
    decreases |b|
  {
    if b == [] {
      assert a + b == a;
    } else {
      TouchedByJoin(meta, a, b[..|b| - 1]);
      assert (a + b)[..|a + b| - 1] == a + b[..|b| - 1];
    }
  }

  datatype ReturnCode = Granted(qos: QoS) | Failure | TopicFilterInvalid

  function CodeFor(version: Version, e: Entry): ReturnCode {
    if AcceptedFilter(e.filter) then Granted(e.qos)
    else if version == V3 then Failure
    else TopicFilterInvalid
  }

  function AfterEntry(m: map<Key, Subscription>, version: Version, con: Connection, e: Entry): map<Key, Subscription> {
    if AcceptedFilter(e.filter) then ApplyToMap(m, Operation.Emplace(SubscriptionFor(version, con, e))) else m
  }

  /** The records after the entries of a SUBSCRIBE, in order. */
  function AfterEntries(m: map<Key, Subscription>, version: Version, con: Connection, entries: seq<Entry>)
    : map<Key, Subscription>
  {
    if entries == [] then m else
      AfterEntry(AfterEntries(m, version, con, entries[..|entries| - 1]), version, con, entries[|entries| - 1])
  }

  /** The topic index after the valid entries of a SUBSCRIBE, in order. */
  function SubscribedView(view: seq<Subscription>, version: Version, con: Connection, entries: seq<Entry>)
    : seq<Subscription>
  {
    if entries == [] then view else
      var before, e := SubscribedView(view, version, con, entries[..|entries| - 1]), entries[|entries| - 1];
      if !AcceptedFilter(e.filter) then before
      else ApplyToView(ByTopic, before, Operation.Emplace(SubscriptionFor(version, con, e)))
  }

  /** The topic index after the filters of an UNSUBSCRIBE. */
  function UnsubscribedView(view: seq<Subscription>, filters: seq<string>): seq<Subscription> {
    if filters == [] then view else
      var before := UnsubscribedView(view, filters[..|filters| - 1]);
      ApplyToView(ByTopic, before, Operation.EraseTopic(filters[|filters| - 1]))
  }

  function WithoutFilters(m: map<Key, Subscription>, filters: seq<string>): map<Key, Subscription> {
    map k | k in m && k.1 !in filters :: m[k]
  }

  /** Section 3.10.4 of MQTT 3.1.1: an UNSUBSCRIBE ends subscriptions of its own client only. */
  function StandardUnsubscribe(m: map<Key, Subscription>, con: Connection, filters: seq<string>)
    : map<Key, Subscription>
  {
    map k | k in m && !(k.0 == con && k.1 in filters) :: m[k]
  }

  /** Unsubscribing does what the standard asks exactly when no other connection has a record for
      one of the listed filters; otherwise other clients lose theirs. */
  lemma UnsubscribeCondition(m: map<Key, Subscription>, con: Connection, filters: seq<string>)
    ensures WithoutFilters(m, filters) == StandardUnsubscribe(m, con, filters)
            <==> forall k :: k in m && k.1 in filters ==> k.0 == con
  {
    var code, standard := WithoutFilters(m, filters), StandardUnsubscribe(m, con, filters);
    if code == standard {
      forall k | k in m && k.1 in filters ensures k.0 == con { assert k !in code; }
    }
  }

  /** Section 3.8.4 of MQTT 3.1.1: a repeated subscription replaces the stored one. */
  function StandardSubscribe(m: map<Key, Subscription>, s: Subscription): map<Key, Subscription> { m[KeyOf(s) := s] }

  /** What section 3.8.4 asks of a whole SUBSCRIBE: each valid entry in turn replaces. */
  function StandardEntries(m: map<Key, Subscription>, version: Version, con: Connection, entries: seq<Entry>)
    : map<Key, Subscription>
  {
    if entries == [] then m else
      var before, e := StandardEntries(m, version, con, entries[..|entries| - 1]), entries[|entries| - 1];
      if AcceptedFilter(e.filter) then StandardSubscribe(before, SubscriptionFor(version, con, e)) else before
  }

  /** Entry `i` is the first one for a valid filter. */
  ghost predicate FirstFor(entries: seq<Entry>, i: int, filter: string) {
    && 0 <= i < |entries| && entries[i].filter == filter && AcceptedFilter(filter)
    && forall j :: 0 <= j < i ==> entries[j].filter != filter
  }

  /** Entry `i` is the last one for a valid filter. */
  ghost predicate LastFor(entries: seq<Entry>, i: int, filter: string) {
    && 0 <= i < |entries| && entries[i].filter == filter && AcceptedFilter(filter)
    && forall j :: i < j < |entries| ==> entries[j].filter != filter
  }

  /** Some entry asks for the key. */
  ghost predicate Listed(entries: seq<Entry>, con: Connection, key: Key) {
    key.0 == con && AcceptedFilter(key.1) && exists i :: 0 <= i < |entries| && entries[i].filter == key.1
  }

  lemma {:induction false} FirstExists(entries: seq<Entry>, filter: string, n: nat)
    requires n < |entries| && entries[n].filter == filter && AcceptedFilter(filter)
    ensures exists i :: i <= n && FirstFor(entries, i, filter)
    decreases n
  {
    if j :| 0 <= j < n && entries[j].filter == filter {
      FirstExists(entries, filter, j);
    } else {
      assert FirstFor(entries, n, filter);
    }
  }

  lemma {:induction false} LastExists(entries: seq<Entry>, filter: string, n: nat)
    requires n < |entries| && entries[n].filter == filter && AcceptedFilter(filter)
    ensures exists i :: n <= i && LastFor(entries, i, filter)
    decreases |entries| - n
  {
    if j :| n < j < |entries| && entries[j].filter == filter {
      LastExists(entries, filter, j);
    } else {
      assert LastFor(entries, n, filter);
    }
  }

  lemma ListedStep(entries: seq<Entry>, con: Connection, key: Key)
    requires entries != []
    ensures var n := |entries| - 1;
            Listed(entries, con, key) <==> Listed(entries[..n], con, key)
                                           || (AcceptedFilter(entries[n].filter) && key == (con, entries[n].filter))
  {
    var n := |entries| - 1;
    if i :| 0 <= i < |entries| && entries[i].filter == key.1 {
      if i < n { assert entries[..n][i].filter == key.1; }
    }
  }

  /** One key at a time, a SUBSCRIBE adds what it lists, and keeps what it finds. */
  lemma {:induction false} EntriesKeep(m: map<Key, Subscription>, version: Version, con: Connection,
                                       entries: seq<Entry>, key: Key)
    ensures var after := AfterEntries(m, version, con, entries);
            && (key in after <==> key in m || Listed(entries, con, key))
            && (key in m ==> after[key] == m[key])
    decreases |entries|
  {
    if entries != [] {
      EntriesKeep(m, version, con, entries[..|entries| - 1], key);
      ListedStep(entries, con, key);
    }
  }

  lemma {:induction false} FirstStays(m: map<Key, Subscription>, version: Version, con: Connection,
                                      entries: seq<Entry>, i: nat)
    requires i < |entries| && FirstFor(entries, i, entries[i].filter)
    ensures var key, after := (con, entries[i].filter), AfterEntries(m, version, con, entries);
            key in after && after[key] == KeptFor(m, version, con, entries[i])
    decreases |entries|
  {
    var n := |entries| - 1;
    var init := entries[..n];
    if i < n {
      assert init[i] == entries[i];
      assert FirstFor(init, i, init[i].filter);
      FirstStays(m, version, con, init, i);
    } else {
      var key := (con, entries[n].filter);
      assert !Listed(init, con, key);
      EntriesKeep(m, version, con, init, key);
    }
  }

  /** One key at a time, the standard replaces what it finds by the last entry. */
  lemma {:induction false} EntriesReplace(m: map<Key, Subscription>, version: Version, con: Connection,
                                          entries: seq<Entry>, key: Key)
    ensures var standard := StandardEntries(m, version, con, entries);
            && (key in standard <==> key in m || Listed(entries, con, key))
            && (!Listed(entries, con, key) && key in m ==> standard[key] == m[key])
    decreases |entries|
  {
    if entries != [] {
      EntriesReplace(m, version, con, entries[..|entries| - 1], key);
      ListedStep(entries, con, key);
    }
  }

  lemma {:induction false} LastReplaces(m: map<Key, Subscription>, version: Version, con: Connection,
                                        entries: seq<Entry>, i: nat)
    requires i < |entries| && LastFor(entries, i, entries[i].filter)
    ensures var key, standard := (con, entries[i].filter), StandardEntries(m, version, con, entries);
            key in standard && standard[key] == SubscriptionFor(version, con, entries[i])
    decreases |entries|
  {
    var n := |entries| - 1;
    if i < n {
      var init := entries[..n];
      assert init[i] == entries[i];
      assert LastFor(init, i, init[i].filter);
      LastReplaces(m, version, con, init, i);
    }
  }

  /** What the store keeps for a filter whose first entry is `first`. */
  function KeptFor(m: map<Key, Subscription>, version: Version, con: Connection, first: Entry): Subscription {
    if (con, first.filter) in m then m[(con, first.filter)] else SubscriptionFor(version, con, first)
  }

  /** For every valid filter listed, what is kept is what the last entry asks for. */
  ghost predicate LastIsKept(m: map<Key, Subscription>, version: Version, con: Connection, entries: seq<Entry>) {
    forall i, j :: 0 <= i < |entries| && 0 <= j < |entries|
                   && FirstFor(entries, i, entries[i].filter) && LastFor(entries, j, entries[i].filter)
                   ==> KeptFor(m, version, con, entries[i]) == SubscriptionFor(version, con, entries[j])
  }

  lemma KeyAgrees(m: map<Key, Subscription>, version: Version, con: Connection, entries: seq<Entry>, key: Key)
    requires LastIsKept(m, version, con, entries)
    ensures var after, standard := AfterEntries(m, version, con, entries), StandardEntries(m, version, con, entries);
            (key in after <==> key in standard) && (key in after ==> after[key] == standard[key])
  {
    EntriesKeep(m, version, con, entries, key);
    EntriesReplace(m, version, con, entries, key);
    if Listed(entries, con, key) {
      var n :| 0 <= n < |entries| && entries[n].filter == key.1;
      FirstExists(entries, key.1, n);
      LastExists(entries, key.1, n);
      var i :| i <= n && FirstFor(entries, i, key.1);
      var j :| n <= j && LastFor(entries, j, key.1);
      FirstStays(m, version, con, entries, i);
      LastReplaces(m, version, con, entries, j);
    }
  }

  /** A SUBSCRIBE does what the standard asks exactly when, for every valid filter it lists, the
      record that stays (the stored one, or the first entry's when there is none) is the one the
      filter's last entry asks for. */
  lemma SubscribeCondition(m: map<Key, Subscription>, version: Version, con: Connection, entries: seq<Entry>)
    ensures AfterEntries(m, version, con, entries) == StandardEntries(m, version, con, entries)
            <==> LastIsKept(m, version, con, entries)
  {
    var after, standard := AfterEntries(m, version, con, entries), StandardEntries(m, version, con, entries);
    if LastIsKept(m, version, con, entries) {
      forall key: Key ensures (key in after <==> key in standard) && (key in after ==> after[key] == standard[key]) {
        KeyAgrees(m, version, con, entries, key);
      }
    }
    if after == standard {
      forall i, j | 0 <= i < |entries| && 0 <= j < |entries|
                    && FirstFor(entries, i, entries[i].filter) && LastFor(entries, j, entries[i].filter)
        ensures KeptFor(m, version, con, entries[i]) == SubscriptionFor(version, con, entries[j])
      {
        FirstStays(m, version, con, entries, i);
        LastReplaces(m, version, con, entries, j);
      }
    }
  }

  /** Connection 2 loses its subscription when connection 1 unsubscribes; a second subscription at
      quality of service 2 stays at 0, and so does the second of two entries of one packet for a
      filter that was not stored. */
  lemma SubscriptionGapWitnesses()
    ensures var other := Subscription("a", 2, 0, false, false);
            WithoutFilters(map[KeyOf(other) := other], ["a"])
            != StandardUnsubscribe(map[KeyOf(other) := other], 1, ["a"])
    ensures var first, again := Subscription("a", 1, 0, false, false), Entry("a", 2, false, false);
            AfterEntries(map[KeyOf(first) := first], V3, 1, [again])
            != StandardEntries(map[KeyOf(first) := first], V3, 1, [again])
    ensures var twice := [Entry("a", 0, false, false), Entry("a", 2, false, false)];
            AfterEntries(map[], V3, 1, twice) != StandardEntries(map[], V3, 1, twice)
  {
    var other := Subscription("a", 2, 0, false, false);
    UnsubscribeCondition(map[KeyOf(other) := other], 1, ["a"]);
    assert KeyOf(other) in map[KeyOf(other) := other] && KeyOf(other).1 in ["a"];
    AcceptanceByCharacter("a");
    var first, again := Subscription("a", 1, 0, false, false), [Entry("a", 2, false, false)];
    SubscribeCondition(map[KeyOf(first) := first], V3, 1, again);
    assert FirstFor(again, 0, again[0].filter) && LastFor(again, 0, again[0].filter);
    var twice := [Entry("a", 0, false, false), Entry("a", 2, false, false)];
    SubscribeCondition(map[], V3, 1, twice);
    assert FirstFor(twice, 0, twice[0].filter) && LastFor(twice, 1, twice[0].filter);
  }

  class Broker {
    const settings: nat
    const scope: Scope
    const queue: MessageQueue
    const subs: SubscriptionContainer
    var connections: set<Connection>
    var meta: map<Connection, Metadata>
    var sent: seq<Delivery>

    ghost predicate Valid()
      reads subs
    {
      subs.Valid() && WellFormed(scope)
    }

    constructor (settings: nat, scope: Scope, queue: MessageQueue)
      requires WellFormed(scope)
      ensures Valid() && fresh(subs)
      ensures this.settings == settings && this.scope == scope && this.queue == queue
      ensures connections == {} && meta == map[] && sent == [] && subs.byTopic == []
    {
      this.settings, this.scope, this.queue := settings, scope, queue;
      subs := new SubscriptionContainer();
      connections, meta, sent := {}, map[], [];
    }

    // ----- Connection lifecycle -----------------------------------------------------------

    method Accept(con: Connection, ip: nat, port: nat)
      modifies this`meta
      ensures meta == old(meta)[con := MetadataOf(old(meta), con).(ip := ip, port := port)]
    {
      meta := meta[con := MetadataOf(meta, con).(ip := ip, port := port)];
    }

    method Connect(con: Connection, clientId: string, version: Version)
      modifies this`meta, this`connections
      ensures connections == old(connections) + {con}
      ensures meta == old(meta)[con := MetadataOf(old(meta), con).(clientId := clientId, version := version)]
    {
      connections := connections + {con};
      meta := meta[con := MetadataOf(meta, con).(clientId := clientId)];
      meta := meta[con := MetadataOf(meta, con).(version := version)];
    }

    /** The first phase of closing, before the lock is taken. */
    method Unregister(con: Connection)
      modifies this`connections, this`meta
      ensures connections == old(connections) - {con} && meta == old(meta) - {con}
    {
      connections := connections - {con};
      meta := meta - {con};
    }

    /** The second phase, under the lock. */
    method DropSubscriptions(con: Connection)
      requires Valid()
      modifies this`connections, subs
      ensures Valid() && connections == old(connections) - {con}
      ensures subs.byTopic == ApplyToView(ByTopic, old(subs.byTopic), EraseConnection(con))
      ensures subs.Records() == ApplyToMap(old(subs.Records()), EraseConnection(con))
    {
      connections := connections - {con};
      subs.EraseConnection(con);
    }

    /** Both phases with nothing in between: nothing of the connection is left, everything else
        stays, and a second close changes nothing. */
    method CloseConnection(con: Connection)
      requires Valid()
      modifies this`connections, this`meta, subs
      ensures Valid()
      ensures connections == old(connections) - {con} && meta == old(meta) - {con}
      ensures subs.Records() == ApplyToMap(old(subs.Records()), EraseConnection(con))
      ensures subs.byTopic == ApplyToView(ByTopic, old(subs.byTopic), EraseConnection(con))
      ensures con !in old(connections) && con !in old(meta) && (forall k :: k in old(subs.Records()) ==> k.0 != con)
              ==> connections == old(connections) && meta == old(meta) && subs.Records() == old(subs.Records())
    {
      Unregister(con);
      DropSubscriptions(con);
    }

    method Disconnect(con: Connection)
      requires Valid()
      modifies this`connections, this`meta, subs
      ensures Valid()
      ensures connections == old(connections) - {con} && meta == old(meta) - {con}
      ensures subs.Records() == ApplyToMap(old(subs.Records()), EraseConnection(con))
      ensures subs.byTopic == ApplyToView(ByTopic, old(subs.byTopic), EraseConnection(con))
    {
      meta := Touch(meta, con);
      CloseConnection(con);
      assert meta == old(meta) - {con};
    }

    /** A socket error closes the connection unless it was closed already. */
    method HandleError(con: Connection)
      requires Valid()
      modifies this`connections, this`meta, subs
      ensures Valid()
      ensures con !in old(connections)
              ==> connections == old(connections) && meta == old(meta) && subs.Records() == old(subs.Records())
                  && subs.byTopic == old(subs.byTopic)
      ensures con in old(connections)
              ==> && connections == old(connections) - {con} && meta == old(meta) - {con}
                  && subs.Records() == ApplyToMap(old(subs.Records()), EraseConnection(con))
                  && subs.byTopic == ApplyToView(ByTopic, old(subs.byTopic), EraseConnection(con))
    {
      if con in connections { Disconnect(con); }
    }

    // ----- Subscriptions ------------------------------------------------------------------

    /** The body of the subscribe loop for one entry. */
    method SubscribeOne(con: Connection, version: Version, e: Entry) returns (code: ReturnCode)
      requires Valid()
      modifies subs
      ensures Valid() && code == CodeFor(version, e)
      ensures subs.Records() == AfterEntry(old(subs.Records()), version, con, e)
      ensures subs.byTopic == SubscribedView(old(subs.byTopic), version, con, [e])
    {
      ghost var one := [e];
      assert one[..0] == [];
      var valid := ValidTopicFilter(e.filter);
      if valid {
        code := Granted(e.qos);
        var inserted := subs.Emplace(SubscriptionFor(version, con, e));
      } else {
        code := if version == V3 then Failure else TopicFilterInvalid;
      }
    }

    /** The reply has one code per entry, in order. Every record that existed keeps its options;
        every other valid filter gets one record, with the options of its first entry. */
    method Subscribe(con: Connection, version: Version, entries: seq<Entry>) returns (codes: seq<ReturnCode>)
      requires Valid()
      modifies subs, this`meta
      ensures Valid()
      ensures meta == Touch(old(meta), con)
      ensures |codes| == |entries|
      ensures forall i :: 0 <= i < |entries| ==> codes[i] == CodeFor(version, entries[i])
      ensures forall i :: 0 <= i < |entries| ==>
                if entries[i].filter != "" && WildcardsPlaced(entries[i].filter)
                then codes[i] == Granted(entries[i].qos)
                else codes[i] == match version case V3 => Failure case V5 => TopicFilterInvalid
      ensures subs.byTopic == SubscribedView(old(subs.byTopic), version, con, entries)
      ensures subs.Records() == AfterEntries(old(subs.Records()), version, con, entries)
      ensures KeepsAndGains(old(subs.Records()), subs.Records(), version, con, entries)
      ensures NewAsAsked(old(subs.Records()), subs.Records(), version, con, entries)
    {
      meta := Touch(meta, con);
      codes := [];
      ghost var before, view := subs.Records(), subs.byTopic;
      for n := 0 to |entries|
        invariant Valid()
        invariant CodesSoFar(codes, version, entries, n)
        invariant SubscribedTo(before, subs.Records(), view, subs.byTopic, version, con, entries, n)
        modifies subs
      {
        SubscribeStep(before, subs.Records(), view, subs.byTopic, version, con, entries, n);
        CodesStep(codes, version, entries, n);
        var code := SubscribeOne(con, version, entries[n]);
        codes := codes + [code];
      }
      SubscribedAll(before, subs.Records(), view, subs.byTopic, version, con, entries);
      CodesByCharacter(codes, version, entries);
    }

    /** Unsubscribing erases the listed filters for every connection, and nothing else. */
    method Unsubscribe(con: Connection, filters: seq<string>)
      requires Valid()
      modifies subs, this`meta
      ensures Valid() && meta == Touch(old(meta), con)
      ensures subs.Records() == WithoutFilters(old(subs.Records()), filters)
      ensures subs.byTopic == UnsubscribedView(old(subs.byTopic), filters)
    {
      meta := Touch(meta, con);
      ghost var before, view := subs.Records(), subs.byTopic;
      for n := 0 to |filters|
        invariant Valid()
        invariant subs.Records() == WithoutFilters(before, filters[..n])
        invariant subs.byTopic == UnsubscribedView(view, filters[..n])
        modifies subs
      {
        UnsubscribeStep(before, filters, n);
        assert filters[..n + 1][..n] == filters[..n];
        var count := subs.EraseTopic(filters[n]);
      }
      assert filters[..|filters|] == filters;
    }

    // ----- Publications --------------------------------------------------------------------

    method Share(topic: string, contents: seq<char>, options: PublishOptions, version: Version, props: Properties)
      modifies queue
      ensures queue.items
              == old(queue.items) + [(settings, Message(contents, topic, ToByte(options), version, props))]
    {
      queue.Push(settings, Message(contents, topic, ToByte(options), version, props));
    }

    /** The body of the v3 loop for one subscription. */
    method SendV3(p: Publish, sub: Subscription)
      requires p.version == V3
      modifies this`meta, this`sent
      ensures sent == old(sent) + Copies(FromHandler(p), sub)
      ensures meta == TouchedBy(old(meta), Copies(FromHandler(p), sub))
    {
      assert TouchedBy(meta, []) == meta;
      var matched, pastEnd := MatchesFilter(sub.filter, p.topic);
      if matched {
        sent := sent + [Delivery(sub.con, p.topic, p.contents, MinQoS(sub.qos, p.options.qos), false, [])];
        meta := Touch(meta, sub.con);
      }
    }

    method PublishV3(p: Publish)
      requires Valid() && p.version == V3
      modifies this`meta, this`sent, queue
      ensures Valid()
      ensures sent == old(sent) + Fanout(FromHandler(p), subs.byTopic)
      ensures meta == TouchedBy(Touch(old(meta), p.con), Fanout(FromHandler(p), subs.byTopic))
      ensures queue.items == old(queue.items) + [(settings, QueuedForm(p))]
      ensures FiltersAscend(subs.byTopic)
    {
      OrderedAscends(subs.byTopic);
      meta := Touch(meta, p.con);
      var view := subs.byTopic;
      ghost var before, start := sent, meta;
      for i := 0 to |view|
        invariant LoopedTo(before, start, sent, meta, FromHandler(p), view, i)
        modifies this`meta, this`sent
      {
        SendV3(p, view[i]);
        LoopedOn(before, start, FromHandler(p), view, i);
      }
      assert view[..|view|] == view;
      Share(p.topic, p.contents, p.options, V3, []);
    }

    /** The body of the v5 loop for one subscription. */
    method SendV5(p: Publish, sub: Subscription)
      requires p.version == V5
      modifies this`meta, this`sent
      ensures sent == old(sent) + Copies(FromHandler(p), sub)
      ensures meta == TouchedBy(old(meta), Copies(FromHandler(p), sub))
    {
      assert TouchedBy(meta, []) == meta;
      var matched, pastEnd := MatchesFilter(sub.filter, p.topic);
      if matched {
        if sub.nl && sub.con == p.con { return; }
        var retain := if sub.rap then p.options.retain else false;
        sent := sent + [Delivery(sub.con, p.topic, p.contents, MinQoS(sub.qos, p.options.qos), retain, p.props)];
        meta := Touch(meta, sub.con);
      }
    }

    method PublishV5(p: Publish)
      requires Valid() && p.version == V5
      modifies this`meta, this`sent, queue
      ensures Valid()
      ensures sent == old(sent) + Fanout(FromHandler(p), subs.byTopic)
      ensures meta == TouchedBy(Touch(old(meta), p.con), Fanout(FromHandler(p), subs.byTopic))
      ensures queue.items == old(queue.items) + [(settings, QueuedForm(p))]
      ensures FiltersAscend(subs.byTopic)
    {
      OrderedAscends(subs.byTopic);
      meta := Touch(meta, p.con);
      var view := subs.byTopic;
      ghost var before, start := sent, meta;
      for i := 0 to |view|
        invariant LoopedTo(before, start, sent, meta, FromHandler(p), view, i)
        modifies this`meta, this`sent
      {
        SendV5(p, view[i]);
        LoopedOn(before, start, FromHandler(p), view, i);
      }
      assert view[..|view|] == view;
      Share(p.topic, p.contents, p.options, V5, p.props);
    }

    /** The body of the injection loop for one subscription. */
    method SendInjected(m: Message, sub: Subscription)
      modifies this`meta, this`sent
      ensures sent == old(sent) + Copies(FromQueue(m), sub)
      ensures meta == TouchedBy(old(meta), Copies(FromQueue(m), sub))
    {
      assert TouchedBy(meta, []) == meta;
      var options := FromByte(m.options);
      var matched, pastEnd := MatchesFilter(sub.filter, m.topic);
      if matched {
        if m.version == V3 {
          sent := sent + [Delivery(sub.con, m.topic, m.payload, MinQoS(sub.qos, options.qos), false, [])];
        } else {
          var retain := if sub.rap then options.retain else false;
          sent := sent + [Delivery(sub.con, m.topic, m.payload, MinQoS(sub.qos, options.qos), retain, m.props)];
        }
        meta := Touch(meta, sub.con);
      }
    }

    /** Injection from the control thread: it delivers, and it does not push. */
    method InjectPublish(m: Message)
      requires Valid()
      modifies this`meta, this`sent
      ensures Valid()
      ensures sent == old(sent) + Fanout(FromQueue(m), subs.byTopic)
      ensures meta == TouchedBy(old(meta), Fanout(FromQueue(m), subs.byTopic))
      ensures FiltersAscend(subs.byTopic)
    {
      OrderedAscends(subs.byTopic);
      var view := subs.byTopic;
      ghost var before, start := sent, meta;
      for i := 0 to |view|
        invariant LoopedTo(before, start, sent, meta, FromQueue(m), view, i)
      {
        SendInjected(m, view[i]);
        LoopedOn(before, start, FromQueue(m), view, i);
      }
      assert view[..|view|] == view;
    }

    // ----- What queued items are worth ------------------------------------------------------

    /** What one item is worth to this adapter with its present subscriptions: nothing when it is
        the adapter's own or its scope does not include the topic. */
    ghost function Offered(item: (nat, Message)): seq<Delivery>
      reads subs
    {
      if settings != item.0 && Includes(scope, item.1.topic) then Fanout(FromQueue(item.1), subs.byTopic) else []
    }

    /** What this adapter sends for a stretch of the queue. */
    ghost function Routed(items: seq<(nat, Message)>): seq<Delivery>
      reads subs
    {
      if items == [] then [] else Routed(items[..|items| - 1]) + Offered(items[|items| - 1])
    }
  }

  // ----- The shared queue --------------------------------------------------------------------

  datatype Popped = TimedOut | Item(settings: nat, message: Message)

  class MessageQueue {
    var items: seq<(nat, Message)>

    constructor ()
      ensures items == []
    {
      items := [];
    }

    method Push(settings: nat, message: Message)
      modifies this
      ensures items == old(items) + [(settings, message)]
    {
      items := items + [(settings, message)];
    }

    /** Pop one item; the wait ends with an empty queue only by its timeout. */
    method WaitAndPop() returns (r: Popped)
      modifies this
      ensures r.TimedOut? <==> old(items) == []
      ensures r.TimedOut? ==> items == old(items)
      ensures r.Item? ==> old(items) == [(r.settings, r.message)] + items
    {
      if items == [] { return TimedOut; }
      r := Item(items[0].0, items[0].1);
      items := items[1..];
    }

    /** The inner loop of a drain: one item is offered to every adapter of the pool. */
    static method RouteItem(pool: seq<Broker>, item: (nat, Message))
      requires forall i :: 0 <= i < |pool| ==> pool[i].Valid()
      requires forall i, j :: 0 <= i < j < |pool| ==> pool[i] != pool[j]
      modifies pool`sent, pool`meta
      ensures forall i :: 0 <= i < |pool| ==> Took(pool[i], item, old(pool[i].sent), old(pool[i].meta))
    {
      for a := 0 to |pool|
        invariant forall i :: a <= i < |pool| ==> pool[i].sent == old(pool[i].sent) && pool[i].meta == old(pool[i].meta)
        invariant forall i :: 0 <= i < a ==> Took(pool[i], item, old(pool[i].sent), old(pool[i].meta))
      {
        var included, pastEnd := IncludesTopic(pool[a].scope, item.1.topic);
        if pool[a].settings != item.0 && included {
          pool[a].InjectPublish(item.1);
        }
      }
    }

    /** Drain the queue into every adapter of the pool: afterwards the queue is empty, the result
        is the length it had, and each adapter has sent, in queue order, what each admitted item
        is worth to its subscriptions. */
    method WaitAndPopAll(pool: seq<Broker>) returns (popped: nat)
      requires forall i :: 0 <= i < |pool| ==> pool[i].Valid()
      requires forall i, j :: 0 <= i < j < |pool| ==> pool[i] != pool[j]
      modifies this, pool`sent, pool`meta
      ensures items == [] && popped == |old(items)|
      ensures forall i :: 0 <= i < |pool| ==>
                Gained(pool[i], pool[i].Routed(old(items)), old(pool[i].sent), old(pool[i].meta))
    {
      popped := |items|;
      ghost var all, done := items, 0;
      while items != []
        invariant 0 <= done <= |all| && items == all[done..]
        invariant forall i :: 0 <= i < |pool| ==>
                    Gained(pool[i], pool[i].Routed(all[..done]), old(pool[i].sent), old(pool[i].meta))
        decreases |items|
      {
        label Before:
        RouteItem(pool, items[0]);
        forall i | 0 <= i < |pool|
          ensures Gained(pool[i], pool[i].Routed(all[..done + 1]), old(pool[i].sent), old(pool[i].meta))
        {
          assert all[..done + 1][..done] == all[..done];
          TookIsOffered(pool[i], items[0], old@Before(pool[i].sent), old@Before(pool[i].meta));
          GainedTwice(pool[i], pool[i].Routed(all[..done]), pool[i].Offered(items[0]),
                      old(pool[i].sent), old(pool[i].meta), old@Before(pool[i].sent), old@Before(pool[i].meta));
        }
        items := items[1..];
        done := done + 1;
      }
      assert all[..done] == all;
    }
  }

  /** An item of another adapter whose topic the scope includes is sent to the subscriptions it is
      for; any other item leaves the broker as it was. */
  ghost predicate Took(b: Broker, item: (nat, Message), sent: seq<Delivery>, meta: map<Connection, Metadata>)
    reads b, b.subs
  {
    if item.0 != b.settings && Includes(b.scope, item.1.topic) then
      && b.sent == sent + Fanout(FromQueue(item.1), b.subs.byTopic)
      && b.meta == TouchedBy(meta, Fanout(FromQueue(item.1), b.subs.byTopic))
    else
      b.sent == sent && b.meta == meta
  }

  lemma TookIsOffered(b: Broker, item: (nat, Message), sent: seq<Delivery>, meta: map<Connection, Metadata>)
    requires Took(b, item, sent, meta)
    ensures Gained(b, b.Offered(item), sent, meta)
  {
    assert sent + [] == sent;
  }

  /** The broker has sent `out` more, and looked up the recipients. */
  ghost predicate Gained(b: Broker, out: seq<Delivery>, sent: seq<Delivery>, meta: map<Connection, Metadata>)
    reads b
  {
    b.sent == sent + out && b.meta == TouchedBy(meta, out)
  }

  // ----- Steps of the loops --------------------------------------------------------------------

  lemma GainedTwice(b: Broker, x: seq<Delivery>, y: seq<Delivery>, sent: seq<Delivery>, meta: map<Connection, Metadata>,
                    midSent: seq<Delivery>, midMeta: map<Connection, Metadata>)
    requires midSent == sent + x && midMeta == TouchedBy(meta, x) && Gained(b, y, midSent, midMeta)
    ensures Gained(b, x + y, sent, meta)
  {
    TouchedByJoin(meta, x, y);
  }

  /** A delivery loop stands at position `i` of the topic index. */
  ghost predicate LoopedTo(before: seq<Delivery>, start: map<Connection, Metadata>, sent: seq<Delivery>,
                           meta: map<Connection, Metadata>, src: Source, view: seq<Subscription>, i: nat)
  {
    && i <= |view| && sent == before + Fanout(src, view[..i]) && meta == TouchedBy(start, Fanout(src, view[..i]))
  }

  lemma LoopedOn(before: seq<Delivery>, start: map<Connection, Metadata>, src: Source, view: seq<Subscription>, i: nat)
    requires i < |view|
    ensures LoopedTo(before, start, before + Fanout(src, view[..i]) + Copies(src, view[i]),
                     TouchedBy(TouchedBy(start, Fanout(src, view[..i])), Copies(src, view[i])), src, view, i + 1)
  {
    FanoutStep(src, view, i);
    Appended(before, start, Fanout(src, view[..i]), Copies(src, view[i]), Fanout(src, view[..i + 1]));
  }

  lemma FanoutStep(src: Source, subs: seq<Subscription>, i: nat)
    requires i < |subs|
    ensures Fanout(src, subs[..i + 1]) == Fanout(src, subs[..i]) + Copies(src, subs[i])
  {
    assert subs[..i + 1][..i] == subs[..i];
  }

  lemma Appended(before: seq<Delivery>, start: map<Connection, Metadata>, x: seq<Delivery>, y: seq<Delivery>,
                 all: seq<Delivery>)
    requires all == x + y
    ensures before + all == before + x + y && TouchedBy(start, all) == TouchedBy(TouchedBy(start, x), y)
  {
    Regrouped(before, x, y);
    TouchedByJoin(start, x, y);
  }

  lemma Regrouped(a: seq<Delivery>, b: seq<Delivery>, c: seq<Delivery>)
    ensures a + (b + c) == a + b + c
  {}

  /** The subscribe loop stands at entry `n`. */
  ghost predicate SubscribedTo(before: map<Key, Subscription>, records: map<Key, Subscription>,
                               start: seq<Subscription>, view: seq<Subscription>, version: Version, con: Connection,
                               entries: seq<Entry>, n: nat)
  {
    && n <= |entries| && records == AfterEntries(before, version, con, entries[..n])
    && view == SubscribedView(start, version, con, entries[..n])
  }

  predicate CodesSoFar(codes: seq<ReturnCode>, version: Version, entries: seq<Entry>, n: nat) {
    n <= |entries| && |codes| == n && forall i :: 0 <= i < n ==> codes[i] == CodeFor(version, entries[i])
  }

  lemma SubscribeStep(before: map<Key, Subscription>, records: map<Key, Subscription>, start: seq<Subscription>,
                      view: seq<Subscription>, version: Version, con: Connection, entries: seq<Entry>, n: nat)
    requires n < |entries| && SubscribedTo(before, records, start, view, version, con, entries, n)
    ensures SubscribedTo(before, AfterEntry(records, version, con, entries[n]), start,
                         SubscribedView(view, version, con, [entries[n]]), version, con, entries, n + 1)
  {
    var one := [entries[n]];
    assert one[..0] == [] && entries[..n + 1][..n] == entries[..n];
  }

  /** The loop has come to its end. */
  lemma SubscribedAll(before: map<Key, Subscription>, records: map<Key, Subscription>, start: seq<Subscription>,
                      view: seq<Subscription>, version: Version, con: Connection, entries: seq<Entry>)
    requires SubscribedTo(before, records, start, view, version, con, entries, |entries|)
    ensures records == AfterEntries(before, version, con, entries)
    ensures view == SubscribedView(start, version, con, entries)
    ensures KeepsAndGains(before, records, version, con, entries)
    ensures NewAsAsked(before, records, version, con, entries)
  {
    assert entries[..|entries|] == entries;
    EntriesKeepAndGain(before, version, con, entries);
    EntriesAsAsked(before, version, con, entries);
  }

  lemma CodesByCharacter(codes: seq<ReturnCode>, version: Version, entries: seq<Entry>)
    requires CodesSoFar(codes, version, entries, |entries|)
    ensures forall i :: 0 <= i < |entries| ==>
              if entries[i].filter != "" && WildcardsPlaced(entries[i].filter) then codes[i] == Granted(entries[i].qos)
              else codes[i] == match version case V3 => Failure case V5 => TopicFilterInvalid
  {
    forall i | 0 <= i < |entries|
      ensures if entries[i].filter != "" && WildcardsPlaced(entries[i].filter) then codes[i] == Granted(entries[i].qos)
              else codes[i] == match version case V3 => Failure case V5 => TopicFilterInvalid
    {
      AcceptanceByCharacter(entries[i].filter);
      assert codes[i] == CodeFor(version, entries[i]);
    }
  }

  lemma CodesStep(codes: seq<ReturnCode>, version: Version, entries: seq<Entry>, n: nat)
    requires n < |entries| && CodesSoFar(codes, version, entries, n)
    ensures CodesSoFar(codes + [CodeFor(version, entries[n])], version, entries, n + 1)
  {}

  /** Stored records stay, nothing but what is listed is added, and what is added has the options
      of its first entry. */
  ghost predicate KeepsAndGains(before: map<Key, Subscription>, after: map<Key, Subscription>, version: Version,
                                con: Connection, entries: seq<Entry>)
  {
    && (forall k :: k in before ==> k in after && after[k] == before[k])
    && (forall k :: k in after <==> k in before || Listed(entries, con, k))
    && (forall i :: 0 <= i < |entries| && FirstFor(entries, i, entries[i].filter) ==>
          && (con, entries[i].filter) in after
          && after[(con, entries[i].filter)] == KeptFor(before, version, con, entries[i]))
  }

  /** The record of a filter that had none carries the options of its first entry. */
  ghost predicate NewAsAsked(before: map<Key, Subscription>, after: map<Key, Subscription>, version: Version,
                             con: Connection, entries: seq<Entry>)
  {
    forall i :: 0 <= i < |entries| && FirstFor(entries, i, entries[i].filter) && (con, entries[i].filter) !in before ==>
      && (con, entries[i].filter) in after
      && AsAsked(version, con, entries[i], after[(con, entries[i].filter)])
  }

  lemma EntriesAsAsked(before: map<Key, Subscription>, version: Version, con: Connection, entries: seq<Entry>)
    ensures NewAsAsked(before, AfterEntries(before, version, con, entries), version, con, entries)
  {
    forall i | 0 <= i < |entries| && FirstFor(entries, i, entries[i].filter) && (con, entries[i].filter) !in before
      ensures (con, entries[i].filter) in AfterEntries(before, version, con, entries)
      ensures AsAsked(version, con, entries[i], AfterEntries(before, version, con, entries)[(con, entries[i].filter)])
    {
      FirstStays(before, version, con, entries, i);
      SubscriptionIsAsAsked(version, con, entries[i]);
    }
  }

  lemma EntriesKeepAndGain(before: map<Key, Subscription>, version: Version, con: Connection, entries: seq<Entry>)
    ensures KeepsAndGains(before, AfterEntries(before, version, con, entries), version, con, entries)
  {
    var after := AfterEntries(before, version, con, entries);
    forall k: Key
      ensures (k in after <==> k in before || Listed(entries, con, k)) && (k in before ==> after[k] == before[k])
    {
      EntriesKeep(before, version, con, entries, k);
    }
    forall i | 0 <= i < |entries| && FirstFor(entries, i, entries[i].filter)
      ensures (con, entries[i].filter) in after
      ensures after[(con, entries[i].filter)] == KeptFor(before, version, con, entries[i])
    {
      FirstStays(before, version, con, entries, i);
    }
  }

  lemma UnsubscribeStep(before: map<Key, Subscription>, filters: seq<string>, n: nat)
    requires n < |filters|
    ensures ApplyToMap(WithoutFilters(before, filters[..n]), Operation.EraseTopic(filters[n]))
            == WithoutFilters(before, filters[..n + 1])
  {
    assert filters[..n + 1] == filters[..n] + [filters[n]];
  }
}
