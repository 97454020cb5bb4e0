/** What holds in every state of every run. */
module Guarantees {
  import opened Mqtt
  import opened Scopes
  import opened Subscriptions
  import opened Topics
  import opened Publications
  import opened Machine
  import opened Sessions
  import opened Logs
  import opened History

  // ----- The queue -----------------------------------------------------------------------------------------

  /** Push history = dispatch history ++ queue, also in the middle of a drain; and the injection
      log of an adapter, all of it, is in order and once each the dispatched items that are not its
      own and that its scope includes, followed by the front one once it has been begun there. */
  lemma QueueRefinement(scopes: seq<Scope>, states: seq<State>, labels: seq<Label>, i: nat, a: nat)
    requires Run(scopes, states, labels) && i < |states| && a < |scopes|
    ensures Shaped(scopes, states[i])
    ensures states[i].pushed == states[i].dispatched + states[i].queue
    ensures Injections(states[i].nodes[a].loops)
            == Admitted(scopes, a, states[i].dispatched) + BegunItems(scopes, states[i], a)
    ensures IncreasingItems(Injections(states[i].nodes[a].loops))
    ensures forall it :: it in Injections(states[i].nodes[a].loops)
                         <==> && it.origin != a && Includes(scopes[a], it.message.topic)
                              && (it in states[i].dispatched || AtFront(states[i], a, it))
  {
    RunKeepsHistory(scopes, states, labels, i);
    assert AdapterInv(scopes, states[i], a);
    InjectedItems(scopes, states[i], a);
    AdmittedMembers(scopes, a, states[i].dispatched);
  }

  /** The item is being routed, and its turn at adapter `a` has begun. */
  ghost predicate AtFront(s: State, a: nat, it: Item) {
    Begun(s.control, a) && s.queue != [] && it == s.queue[0]
  }

  /** Conservation without forwarding loops: the items an adapter has pushed are exactly its
      clients' publications, in order, all but the one still in flight in its worker. */
  lemma PushesArePublications(scopes: seq<Scope>, states: seq<State>, labels: seq<Label>, i: nat, a: nat)
    requires Run(scopes, states, labels) && i < |states| && a < |scopes|
    ensures Shaped(scopes, states[i])
    ensures var n, core := states[i].nodes[a], Core(states[i].workers[a]);
            && (InFlight(core) ==> |n.published| > 0 && core.p == n.published[|n.published| - 1])
            && ItemsFrom(states[i].pushed, a)
               == ItemsOf(a, if InFlight(core) then n.published[..|n.published| - 1] else n.published)
  {
    RunKeepsHistory(scopes, states, labels, i);
    assert AdapterInv(scopes, states[i], a);
    var n := states[i].nodes[a];
    assert n.published[..|n.published|] == n.published;
  }

  // ----- Delivery logs ---------------------------------------------------------------------------------------

  /** The loops of an adapter, the running one cut at its position. */
  function LoopsSoFar(n: Node, act: Active): seq<Loop>
    requires act.AtLoop? ==> n.loops != [] && act.i <= |act.loop.subs|
  {
    match act
    case NoLoop => n.loops
    case AtLoop(i, loop) => n.loops[..|n.loops| - 1] + [loop.(subs := loop.subs[..i])]
  }

  lemma SentIsLog(n: Node, act: Active)
    requires SentMatches(n, act)
    ensures n.sent == LogOf(LoopsSoFar(n, act))
  {
    if act.AtLoop? {
      var init, cut := n.loops[..|n.loops| - 1], act.loop.(subs := act.loop.subs[..act.i]);
      assert (init + [cut])[..|init|] == init;
      assert cut.subs[..|cut.subs|] == cut.subs;
    }
  }

  function FanoutsOf(loops: seq<Loop>): seq<Delivery> {
    if loops == [] then [] else
      var n := |loops| - 1;
      FanoutsOf(loops[..n]) + Fanout(loops[n].src, loops[n].subs)
  }

  lemma {:induction false} LogIsFanouts(loops: seq<Loop>)
    ensures Deliveries(LogOf(loops)) == FanoutsOf(loops)
    decreases |loops|
  {
    if loops != [] {
      var n := |loops| - 1;
      var last := loops[n];
      LogIsFanouts(loops[..n]);
      LoopSendsFanout(last.origin, last.index, last.src, last.subs);
      assert last.subs[..|last.subs|] == last.subs;
      DeliveriesJoin(LogOf(loops[..n]), PartOf(last, |last.subs|));
    }
  }

  /** Whatever the interleaving, what an adapter has sent is the concatenation of whole fan-outs,
      one per loop in the order the loops took the subscription mutex, and of the part of the
      fan-out that the running loop has reached. */
  lemma DeliveryLogIsFanouts(scopes: seq<Scope>, states: seq<State>, labels: seq<Label>, i: nat, a: nat)
    requires Run(scopes, states, labels) && i < |states| && a < |scopes|
    ensures Shaped(scopes, states[i])
    ensures SentMatches(states[i].nodes[a], ActiveLoop(states[i], a))
    ensures Deliveries(states[i].nodes[a].sent)
            == FanoutsOf(LoopsSoFar(states[i].nodes[a], ActiveLoop(states[i], a)))
  {
    RunKeepsHistory(scopes, states, labels, i);
    assert AdapterInv(scopes, states[i], a);
    SentIsLog(states[i].nodes[a], ActiveLoop(states[i], a));
    LogIsFanouts(LoopsSoFar(states[i].nodes[a], ActiveLoop(states[i], a)));
  }

  // ----- Where loops come from ---------------------------------------------------------------------------------

  ghost predicate IncreasingLoops(loops: seq<Loop>) {
    forall x, y :: 0 <= x < y < |loops| && loops[x].origin == loops[y].origin ==> loops[x].index < loops[y].index
  }

  lemma {:induction false} OwnShape(loops: seq<Loop>, a: nat, published: seq<Publish>)
    requires |OwnLoops(loops, a)| <= |published|
    requires forall j :: 0 <= j < |OwnLoops(loops, a)| ==>
               OwnLoops(loops, a)[j].index == j && OwnLoops(loops, a)[j].src == FromHandler(published[j])
    ensures forall x :: 0 <= x < |loops| && loops[x].origin == a ==>
              loops[x].index < |OwnLoops(loops, a)| && loops[x].src == FromHandler(published[loops[x].index])
    ensures forall x, y :: 0 <= x < y < |loops| && loops[x].origin == a && loops[y].origin == a ==>
              loops[x].index < loops[y].index
    decreases |loops|
  {
    if loops != [] {
      var n := |loops| - 1;
      var own, init := OwnLoops(loops, a), OwnLoops(loops[..n], a);
      assert forall j :: 0 <= j < |init| ==> own[j] == init[j];
      OwnShape(loops[..n], a, published);
      assert loops[n].origin == a ==> own[|init|] == loops[n];
      assert forall x :: 0 <= x < n ==> loops[..n][x] == loops[x];
    }
  }

  function ItemOf(loop: Loop): Item
    requires loop.src.FromQueue?
  {
    Item(loop.origin, loop.index, loop.src.message)
  }

  lemma LastIndexIsHighest(items: seq<Item>, last: Item, it: Item)
    requires IncreasingItems(items + [last]) && it in items && it.origin == last.origin
    ensures it.index < last.index
  {
    var j :| 0 <= j < |items| && items[j] == it;
    assert (items + [last])[j] == it && (items + [last])[|items|] == last;
  }

  lemma {:induction false} InjectedShape(loops: seq<Loop>, a: nat)
    requires forall x :: 0 <= x < |loops| ==> (loops[x].origin == a <==> loops[x].src.FromHandler?)
    requires IncreasingItems(Injections(loops))
    ensures forall x :: 0 <= x < |loops| && loops[x].origin != a ==> ItemOf(loops[x]) in Injections(loops)
    ensures forall x, y :: 0 <= x < y < |loops| && loops[x].origin == loops[y].origin != a ==>
              loops[x].index < loops[y].index
    decreases |loops|
  {
    if loops != [] {
      var n := |loops| - 1;
      var prefix, init := loops[..n], Injections(loops[..n]);
      IncreasingPrefix(init, if loops[n].origin == a then [] else [ItemOf(loops[n])]);
      InjectedShape(prefix, a);
      assert forall x :: 0 <= x < n ==> prefix[x] == loops[x];
      if loops[n].origin != a {
        forall x | 0 <= x < n && loops[x].origin == loops[n].origin ensures loops[x].index < loops[n].index {
          assert ItemOf(prefix[x]) in init;
          LastIndexIsHighest(init, ItemOf(loops[n]), ItemOf(loops[x]));
        }
      }
    }
  }

  lemma IncreasingPrefix(items: seq<Item>, more: seq<Item>)
    requires IncreasingItems(items + more)
    ensures IncreasingItems(items)
  {
    assert forall j :: 0 <= j < |items| ==> (items + more)[j] == items[j];
  }

  /** The item carries the publication its index names. */
  ghost predicate Carries(s: State, item: Item) {
    && item.origin < |s.nodes| && item.index < |s.nodes[item.origin].published|
    && item.message == QueuedForm(s.nodes[item.origin].published[item.index])
  }

  lemma PushedCarriesFrom(scopes: seq<Scope>, s: State, b: nat)
    requires Shaped(scopes, s) && b < |scopes| && OriginInv(s, b)
    ensures forall x :: 0 <= x < |s.pushed| && s.pushed[x].origin == b ==> Carries(s, s.pushed[x])
    ensures forall x, y :: 0 <= x < y < |s.pushed| && s.pushed[x].origin == b && s.pushed[y].origin == b ==>
              s.pushed[x].index < s.pushed[y].index
  {
    PushedShape(s.pushed, b, s.nodes[b].published[..PushedCount(Core(s.workers[b]), s.nodes[b])]);
  }

  lemma PushedCarries(scopes: seq<Scope>, s: State)
    requires HistoryInv(scopes, s)
    ensures IncreasingItems(s.pushed)
    ensures forall x :: 0 <= x < |s.pushed| ==> Carries(s, s.pushed[x])
  {
    forall x | 0 <= x < |s.pushed| ensures Carries(s, s.pushed[x]) {
      assert AdapterInv(scopes, s, s.pushed[x].origin);
      PushedCarriesFrom(scopes, s, s.pushed[x].origin);
    }
    forall x, y | 0 <= x < y < |s.pushed| && s.pushed[x].origin == s.pushed[y].origin
      ensures s.pushed[x].index < s.pushed[y].index
    {
      assert AdapterInv(scopes, s, s.pushed[x].origin);
      PushedCarriesFrom(scopes, s, s.pushed[x].origin);
    }
  }

  /** The items that have been offered to adapter `a`, as a stretch of the push history. */
  lemma OfferedItems(scopes: seq<Scope>, s: State, a: nat) returns (offered: seq<Item>)
    requires Shaped(scopes, s) && QueueInv(scopes, s) && a < |scopes| && RemoteInv(scopes, s, a)
    ensures offered <= s.pushed
    ensures Injections(s.nodes[a].loops) == Admitted(scopes, a, offered)
  {
    var begun := BegunItems(scopes, s, a);
    offered := s.dispatched + begun;
    AdmittedBegun(scopes, a, s.dispatched, begun);
    assert begun == [] || begun == [s.queue[0]];
    assert begun <= s.queue;
  }

  lemma AdmittedBegun(scopes: seq<Scope>, a: nat, items: seq<Item>, begun: seq<Item>)
    requires a < |scopes| && (begun == [] || (|begun| == 1 && AdmitsItem(scopes, a, begun[0])))
    ensures Admitted(scopes, a, items + begun) == Admitted(scopes, a, items) + begun
  {
    if begun == [] {
      assert items + begun == items;
    } else {
      assert begun == [begun[0]];
      ItemsExtend(scopes, a, items, begun[0], a);
    }
  }

  lemma AdmittedPart(scopes: seq<Scope>, s: State, a: nat, offered: seq<Item>)
    requires a < |scopes| && offered <= s.pushed && IncreasingItems(s.pushed)
    requires forall x :: 0 <= x < |s.pushed| ==> Carries(s, s.pushed[x])
    ensures IncreasingItems(Admitted(scopes, a, offered))
    ensures forall it :: it in Admitted(scopes, a, offered) ==> Carries(s, it) && AdmitsItem(scopes, a, it)
  {
    assert forall x :: 0 <= x < |offered| ==> offered[x] == s.pushed[x];
    AdmittedSubset(scopes, a, offered);
  }

  lemma InjectedItems(scopes: seq<Scope>, s: State, a: nat)
    requires HistoryInv(scopes, s) && a < |scopes|
    ensures IncreasingItems(Injections(s.nodes[a].loops))
    ensures forall it :: it in Injections(s.nodes[a].loops) ==> Carries(s, it) && AdmitsItem(scopes, a, it)
  {
    assert AdapterInv(scopes, s, a);
    PushedCarries(scopes, s);
    var offered := OfferedItems(scopes, s, a);
    AdmittedPart(scopes, s, a, offered);
  }

  /** A loop over the subscriptions of adapter `a` is for a real publication: one of the adapter's
      own clients, or one of another adapter that the scope of `a` includes. */
  ghost predicate LoopSource(scopes: seq<Scope>, s: State, a: nat, loop: Loop)
    requires a < |scopes|
  {
    && loop.origin < |s.nodes| && loop.index < |s.nodes[loop.origin].published|
    && var p := s.nodes[loop.origin].published[loop.index];
       if loop.origin == a then loop.src == FromHandler(p)
       else loop.src == FromQueue(QueuedForm(p)) && Includes(scopes[a], p.topic)
  }

  lemma LoopSources(scopes: seq<Scope>, s: State, a: nat)
    requires HistoryInv(scopes, s) && a < |scopes|
    ensures forall x :: 0 <= x < |s.nodes[a].loops| ==> LoopSource(scopes, s, a, s.nodes[a].loops[x])
    ensures IncreasingLoops(s.nodes[a].loops)
  {
    var n := s.nodes[a];
    assert AdapterInv(scopes, s, a);
    InjectedItems(scopes, s, a);
    forall x | 0 <= x < |n.loops| ensures n.loops[x].origin == a <==> n.loops[x].src.FromHandler? {
      assert CleanLoop(a, n, n.loops[x]);
    }
    OwnShape(n.loops, a, n.published);
    InjectedShape(n.loops, a);
    forall x | 0 <= x < |n.loops| ensures LoopSource(scopes, s, a, n.loops[x]) {
      if n.loops[x].origin != a { assert ItemOf(n.loops[x]) in Injections(n.loops); }
    }
  }

  // ----- Every delivery ------------------------------------------------------------------------------------------

  lemma EntryWidens(e: Sent, cut: Loop, loop: Loop)
    requires EntryOf(e, cut) && cut == loop.(subs := cut.subs) && cut.subs <= loop.subs
    ensures EntryOf(e, loop)
  {
    var j :| 0 <= j < |cut.subs| && cut.subs[j] == e.sub;
    assert loop.subs[j] == e.sub;
  }

  /** The running loop is one of the adapter's loops, cut short. */
  lemma SoFarIsCut(n: Node, act: Active, x: nat)
    requires SentMatches(n, act) && x < |LoopsSoFar(n, act)|
    ensures var cut := LoopsSoFar(n, act)[x];
            x < |n.loops| && cut == n.loops[x].(subs := cut.subs) && cut.subs <= n.loops[x].subs
  {}

  lemma EntryHasLoop(n: Node, act: Active, e: Sent) returns (x: nat)
    requires SentMatches(n, act) && e in n.sent
    ensures x < |n.loops| && EntryOf(e, n.loops[x])
  {
    SentIsLog(n, act);
    LogEntries(LoopsSoFar(n, act));
    x :| 0 <= x < |LoopsSoFar(n, act)| && EntryOf(e, LoopsSoFar(n, act)[x]);
    SoFarIsCut(n, act, x);
    EntryWidens(e, LoopsSoFar(n, act)[x], n.loops[x]);
  }

  /** The publication that an entry of a delivery log carries. */
  ghost predicate HasPublication(s: State, e: Sent) {
    e.origin < |s.nodes| && e.index < |s.nodes[e.origin].published|
  }

  ghost function PublicationOf(s: State, e: Sent): Publish
    requires HasPublication(s, e)
  {
    s.nodes[e.origin].published[e.index]
  }

  ghost predicate Faithful(scopes: seq<Scope>, s: State, a: nat, e: Sent)
    requires a < |scopes|
  {
    && HasPublication(s, e)
    && var p := PublicationOf(s, e);
       && e.delivery.con == e.sub.con
       && FilterMatches(e.sub.filter, p.topic)
       && e.delivery.topic == p.topic && e.delivery.contents == p.contents
       && e.delivery.qos == MinQoS(e.sub.qos, p.options.qos)
       && e.delivery.retain == (p.version == V5 && e.sub.rap && p.options.retain)
       && e.delivery.props == (if p.version == V3 then [] else p.props)
       && (e.origin != a ==> Includes(scopes[a], p.topic))
  }

  lemma EntryIsFaithful(scopes: seq<Scope>, s: State, a: nat, loop: Loop, e: Sent)
    requires a < |scopes| && LoopSource(scopes, s, a, loop) && EntryOf(e, loop)
    ensures Faithful(scopes, s, a, e)
    ensures SkippedNoLocal(PublicationOf(s, e), e.sub) ==> e.origin != a
  {
    var p := PublicationOf(s, e);
    OptionsRoundTrip(p.options);
    assert [e.delivery][0] == e.delivery;
    assert Copies(loop.src, e.sub)[0] == e.delivery;
  }

  /** Nothing is invented: every delivery at adapter `a` carries a real publication that matches
      the subscription it went through, with its topic, contents and properties, the lower quality
      of service and the retain flag both sides allow; one from another adapter is in scope. */
  lemma EveryDeliveryIsFaithful(scopes: seq<Scope>, states: seq<State>, labels: seq<Label>, i: nat, a: nat, e: Sent)
    requires Run(scopes, states, labels) && i < |states| && a < |scopes|
    requires a < |states[i].nodes| && e in states[i].nodes[a].sent
    ensures Faithful(scopes, states[i], a, e)
  {
    var s := states[i];
    RunKeepsHistory(scopes, states, labels, i);
    assert AdapterInv(scopes, s, a);
    LoopSources(scopes, s, a);
    var x := EntryHasLoop(s.nodes[a], ActiveLoop(s, a), e);
    EntryIsFaithful(scopes, s, a, s.nodes[a].loops[x], e);
  }

  /** The log has an entry of the loop through the record. */
  ghost predicate Delivered(log: seq<Sent>, loop: Loop, sub: Subscription) {
    exists e :: e in log && EntryOf(e, loop) && e.sub == sub
  }

  lemma {:induction false} PartContains(loop: Loop, i: nat, j: nat, e: Sent)
    requires j < i <= |loop.subs| && e in SentFor(loop.origin, loop.index, loop.src, loop.subs[j])
    ensures e in PartOf(loop, i)
    decreases i
  {
    PartStep(loop, i - 1);
    if j < i - 1 { PartContains(loop, i - 1, j, e); }
  }

  lemma {:induction false} LogContains(loops: seq<Loop>, x: nat, e: Sent)
    requires x < |loops| && e in PartOf(loops[x], |loops[x].subs|)
    ensures e in LogOf(loops)
    decreases |loops|
  {
    if x < |loops| - 1 { LogContains(loops[..|loops| - 1], x, e); }
  }

  /** The entry that the loop body makes for a record its publication is for. */
  lemma BodyDelivers(loop: Loop, j: nat) returns (e: Sent)
    requires j < |loop.subs| && Addressed(loop.src, loop.subs[j])
    ensures e in SentFor(loop.origin, loop.index, loop.src, loop.subs[j]) && EntryOf(e, loop) && e.sub == loop.subs[j]
  {
    CopiesShape(loop.src, loop.subs[j]);
    e := Sent(loop.origin, loop.index, loop.subs[j], Copies(loop.src, loop.subs[j])[0]);
  }

  /** Nothing is lost: every record that a loop of adapter `a` has passed and that its publication
      is for has got its delivery. A finished loop has passed all the records it found; the running
      one those before its position. */
  lemma NothingIsLost(scopes: seq<Scope>, states: seq<State>, labels: seq<Label>, i: nat, a: nat, x: nat, j: nat)
    requires Run(scopes, states, labels) && i < |states| && a < |scopes|
    ensures Shaped(scopes, states[i]) && SentMatches(states[i].nodes[a], ActiveLoop(states[i], a))
    ensures var passed := LoopsSoFar(states[i].nodes[a], ActiveLoop(states[i], a));
            x < |passed| && j < |passed[x].subs| && Addressed(passed[x].src, passed[x].subs[j])
            ==> Delivered(states[i].nodes[a].sent, passed[x], passed[x].subs[j])
  {
    RunKeepsHistory(scopes, states, labels, i);
    assert AdapterInv(scopes, states[i], a);
    var n, act := states[i].nodes[a], ActiveLoop(states[i], a);
    SentIsLog(n, act);
    var passed := LoopsSoFar(n, act);
    if x < |passed| && j < |passed[x].subs| && Addressed(passed[x].src, passed[x].subs[j]) {
      var e := BodyDelivers(passed[x], j);
      PartContains(passed[x], |passed[x].subs|, j, e);
      LogContains(passed, x, e);
    }
  }

  /** No Local: no client ever receives its own publication through a subscription that asks not
      to, neither from its adapter's handlers nor by way of the queue. */
  lemma NoLocal(scopes: seq<Scope>, states: seq<State>, labels: seq<Label>, i: nat, a: nat, e: Sent)
    requires Run(scopes, states, labels) && i < |states| && a < |scopes|
    requires a < |states[i].nodes| && e in states[i].nodes[a].sent && e.sub.nl
    ensures HasPublication(states[i], e)
    ensures e.delivery.con != PublicationOf(states[i], e).con
  {
    var s := states[i];
    RunKeepsHistory(scopes, states, labels, i);
    assert AdapterInv(scopes, s, a);
    LoopSources(scopes, s, a);
    var x := EntryHasLoop(s.nodes[a], ActiveLoop(s, a), e);
    var loop := s.nodes[a].loops[x];
    EntryIsFaithful(scopes, s, a, loop, e);
    assert CleanLoop(a, s.nodes[a], loop);
    var p := PublicationOf(s, e);
    if e.origin != a {
      assert SessionInv(s.workers[e.origin], s.nodes[e.origin]);
      assert p.con in s.nodes[e.origin].accepted && e.sub.con in s.nodes[a].accepted;
      assert s.nodes[e.origin].accepted !! s.nodes[a].accepted;
    }
  }

  // ----- Order ---------------------------------------------------------------------------------------------------

  /** The entry carries a publication of client `con` of the adapter with the given history,
      through the subscription with the given key. */
  predicate Chosen(e: Sent, origin: nat, published: seq<Publish>, con: Connection, key: Key) {
    e.origin == origin && e.index < |published| && published[e.index].con == con && KeyOf(e.sub) == key
  }

  /** What went from one publisher through one subscription, in the order of delivery. */
  function Through(log: seq<Sent>, origin: nat, published: seq<Publish>, con: Connection, key: Key): seq<Sent> {
    if log == [] then [] else
      var n := |log| - 1;
      Through(log[..n], origin, published, con, key)
      + if Chosen(log[n], origin, published, con, key) then [log[n]] else []
  }

  lemma {:induction false} ThroughJoin(x: seq<Sent>, y: seq<Sent>, origin: nat, published: seq<Publish>,
                                       con: Connection, key: Key)
    ensures Through(x + y, origin, published, con, key)
            == Through(x, origin, published, con, key) + Through(y, origin, published, con, key)
    decreases |y|
  {
    if y == [] {
      assert x + y == x;
    } else {
      ThroughJoin(x, y[..|y| - 1], origin, published, con, key);
      assert (x + y)[..|x + y| - 1] == x + y[..|y| - 1];
    }
  }

  lemma {:induction false} ThroughMembers(log: seq<Sent>, origin: nat, published: seq<Publish>, con: Connection,
                                          key: Key)
    ensures forall e :: e in Through(log, origin, published, con, key)
                        <==> e in log && Chosen(e, origin, published, con, key)
    decreases |log|
  {
    if log != [] {
      var n := |log| - 1;
      ThroughMembers(log[..n], origin, published, con, key);
      assert log == log[..n] + [log[n]];
    }
  }

  lemma NothingThrough(log: seq<Sent>, origin: nat, published: seq<Publish>, con: Connection, key: Key)
    requires forall e :: e in log ==> KeyOf(e.sub) != key
    ensures Through(log, origin, published, con, key) == []
  {
    if log != [] {
      assert log[|log| - 1] in log;
      NothingThrough(log[..|log| - 1], origin, published, con, key);
    }
  }

  lemma AtMostOne(out: seq<Sent>, origin: nat, published: seq<Publish>, con: Connection, key: Key)
    requires |out| <= 1
    ensures |Through(out, origin, published, con, key)| <= 1
  {
    if out != [] { assert out[..0] == []; }
  }

  /** What a loop has sent before it reaches a record went through other keys. */
  lemma KeysBefore(loop: Loop, i: nat)
    requires i < |loop.subs| && UniqueKeys(loop.subs)
    ensures forall e :: e in PartOf(loop, i) ==> KeyOf(e.sub) != KeyOf(loop.subs[i])
  {
    var cut := loop.(subs := loop.subs[..i]);
    assert cut.subs[..i] == loop.subs[..i];
    assert PartOf(cut, i) == PartOf(loop, i);
    LoopEntries(cut, i);
    forall e | e in PartOf(loop, i) ensures KeyOf(e.sub) != KeyOf(loop.subs[i]) {
      assert EntryOf(e, cut);
      var j :| 0 <= j < |cut.subs| && cut.subs[j] == e.sub;
      assert loop.subs[j] == e.sub;
    }
  }

  lemma OneEntry(origin: nat, index: nat, src: Source, sub: Subscription)
    ensures |SentFor(origin, index, src, sub)| <= 1
    ensures forall e :: e in SentFor(origin, index, src, sub) ==> e.sub == sub
  {}

  /** What is sent for one more record goes through its key only. */
  lemma OneMore(before: seq<Sent>, out: seq<Sent>, k: Key, origin: nat, published: seq<Publish>, con: Connection,
                key: Key)
    requires |out| <= 1 && forall e :: e in out ==> KeyOf(e.sub) == k
    requires forall e :: e in before ==> KeyOf(e.sub) != k
    requires |Through(before, origin, published, con, key)| <= 1
    ensures |Through(before + out, origin, published, con, key)| <= 1
  {
    ThroughJoin(before, out, origin, published, con, key);
    if k == key {
      NothingThrough(before, origin, published, con, key);
      AtMostOne(out, origin, published, con, key);
    } else {
      NothingThrough(out, origin, published, con, key);
    }
  }

  /** One loop passes a subscription at most once, because keys are unique. */
  lemma {:induction false} OncePerLoop(loop: Loop, i: nat, origin: nat, published: seq<Publish>, con: Connection,
                                       key: Key)
    requires i <= |loop.subs| && UniqueKeys(loop.subs)
    ensures |Through(PartOf(loop, i), origin, published, con, key)| <= 1
    decreases i
  {
    if i > 0 {
      var sub := loop.subs[i - 1];
      OncePerLoop(loop, i - 1, origin, published, con, key);
      PartStep(loop, i - 1);
      KeysBefore(loop, i - 1);
      OneEntry(loop.origin, loop.index, loop.src, sub);
      var out := SentFor(loop.origin, loop.index, loop.src, sub);
      OneMore(PartOf(loop, i - 1), out, KeyOf(sub), origin, published, con, key);
    }
  }

  ghost predicate IncreasingEntries(q: seq<Sent>) {
    forall k, l :: 0 <= k < l < |q| ==> q[k].index < q[l].index
  }

  /** Entries chosen from earlier loops have lower positions than those of the last one. */
  lemma EarlierIsLower(loops: seq<Loop>, e: Sent, f: Sent)
    requires loops != [] && IncreasingLoops(loops) && e.origin == f.origin
    requires e in LogOf(loops[..|loops| - 1]) && EntryOf(f, loops[|loops| - 1])
    ensures e.index < f.index
  {
    var n := |loops| - 1;
    LogEntries(loops[..n]);
    var x :| 0 <= x < n && EntryOf(e, loops[..n][x]);
    assert loops[x].origin == loops[n].origin;
  }

  lemma {:induction false} ThroughIncreases(loops: seq<Loop>, origin: nat, published: seq<Publish>, con: Connection,
                                            key: Key)
    requires IncreasingLoops(loops)
    requires forall x :: 0 <= x < |loops| ==> UniqueKeys(loops[x].subs)
    ensures IncreasingEntries(Through(LogOf(loops), origin, published, con, key))
    decreases |loops|
  {
    if loops != [] {
      var n := |loops| - 1;
      var last, init := loops[n], LogOf(loops[..n]);
      var part := PartOf(last, |last.subs|);
      ThroughIncreases(loops[..n], origin, published, con, key);
      ThroughJoin(init, part, origin, published, con, key);
      OncePerLoop(last, |last.subs|, origin, published, con, key);
      var q, r := Through(init, origin, published, con, key), Through(part, origin, published, con, key);
      forall k | 0 <= k < |q| && r != [] ensures q[k].index < r[0].index {
        ThroughMembers(init, origin, published, con, key);
        ThroughMembers(part, origin, published, con, key);
        LoopEntries(last, |last.subs|);
        assert q[k] in q && r[0] in r;
        EarlierIsLower(loops, q[k], r[0]);
      }
      AppendIncreasing(q, r);
    }
  }

  lemma AppendIncreasing(q: seq<Sent>, r: seq<Sent>)
    requires IncreasingEntries(q) && |r| <= 1
    requires forall k :: 0 <= k < |q| && r != [] ==> q[k].index < r[0].index
    ensures IncreasingEntries(q + r)
  {}

  /** Cutting the running loop short keeps positions and the uniqueness of keys. */
  lemma CutKeepsShape(a: nat, n: Node, act: Active)
    requires SentMatches(n, act) && IncreasingLoops(n.loops)
    requires forall x :: 0 <= x < |n.loops| ==> UniqueKeys(n.loops[x].subs)
    ensures IncreasingLoops(LoopsSoFar(n, act))
    ensures forall x :: 0 <= x < |LoopsSoFar(n, act)| ==> UniqueKeys(LoopsSoFar(n, act)[x].subs)
  {
    var cut := LoopsSoFar(n, act);
    forall x | 0 <= x < |cut|
      ensures cut[x].origin == n.loops[x].origin && cut[x].index == n.loops[x].index && UniqueKeys(cut[x].subs)
    {
      SoFarIsCut(n, act, x);
      assert UniqueKeys(n.loops[x].subs);
    }
  }

  /** The log of an adapter comes from loops whose positions increase and whose keys are unique. */
  lemma LogOfIncreasingLoops(scopes: seq<Scope>, s: State, a: nat) returns (cut: seq<Loop>)
    requires HistoryInv(scopes, s) && a < |scopes|
    ensures s.nodes[a].sent == LogOf(cut) && IncreasingLoops(cut)
    ensures forall x :: 0 <= x < |cut| ==> UniqueKeys(cut[x].subs)
  {
    assert AdapterInv(scopes, s, a);
    var n, act := s.nodes[a], ActiveLoop(s, a);
    LoopSources(scopes, s, a);
    SentIsLog(n, act);
    forall x | 0 <= x < |n.loops| ensures UniqueKeys(n.loops[x].subs) { assert CleanLoop(a, n, n.loops[x]); }
    CutKeepsShape(a, n, act);
    cut := LoopsSoFar(n, act);
  }

  /** Ordering, section 4.6 of MQTT 3.1.1: over every run, what one publisher's messages send
      through one subscription is a subsequence of what it published: each entry carries one of
      its publications, and their positions in its adapter's history strictly increase, so
      nothing is reordered and nothing is sent twice. */
  lemma PublisherOrder(scopes: seq<Scope>, states: seq<State>, labels: seq<Label>, i: nat, a: nat, b: nat,
                       con: Connection, key: Key)
    requires Run(scopes, states, labels) && i < |states| && a < |scopes| && b < |scopes|
    ensures Shaped(scopes, states[i])
    ensures var ps := states[i].nodes[b].published;
            var q := Through(states[i].nodes[a].sent, b, ps, con, key);
            && IncreasingEntries(q)
            && forall k :: 0 <= k < |q| ==>
                 && q[k].index < |ps| && ps[q[k].index].con == con
                 && q[k].delivery.topic == ps[q[k].index].topic
                 && q[k].delivery.contents == ps[q[k].index].contents
                 && q[k].delivery.con == key.0
  {
    var s := states[i];
    RunKeepsHistory(scopes, states, labels, i);
    var ps := s.nodes[b].published;
    var cut := LogOfIncreasingLoops(scopes, s, a);
    ThroughIncreases(cut, b, ps, con, key);
    ThroughMembers(s.nodes[a].sent, b, ps, con, key);
    var q := Through(s.nodes[a].sent, b, ps, con, key);
    forall k | 0 <= k < |q|
      ensures q[k].index < |ps| && ps[q[k].index].con == con
      ensures q[k].delivery.topic == ps[q[k].index].topic && q[k].delivery.contents == ps[q[k].index].contents
      ensures q[k].delivery.con == key.0
    {
      assert q[k] in s.nodes[a].sent;
      EveryDeliveryIsFaithful(scopes, states, labels, i, a, q[k]);
    }
  }

  // ----- Lifecycle ------------------------------------------------------------------------------------------------

  /** In every reachable state a stored subscription belongs to a connection that is registered,
      or to the one its worker is between the two phases of closing; every registered connection
      has a metadata entry; a closed connection has no subscription left. */
  lemma StoredSubscriptionsAreLive(scopes: seq<Scope>, states: seq<State>, labels: seq<Label>, i: nat, a: nat)
    requires Run(scopes, states, labels) && i < |states| && a < |scopes|
    ensures Shaped(scopes, states[i])
    ensures var n, core := states[i].nodes[a], Core(states[i].workers[a]);
            && (forall sub :: sub in n.subs ==> sub.con in n.connections || Leaving(core, sub.con))
            && n.connections <= n.meta
            && (forall sub :: sub in n.subs ==> sub.con !in n.closed)
            && Sound(ByTopic, n.subs) && FiltersAscend(n.subs)
  {
    RunKeepsHistory(scopes, states, labels, i);
    assert SessionInv(states[i].workers[a], states[i].nodes[a]);
    OrderedAscends(states[i].nodes[a].subs);
  }

  /** The store operation that a step performs at adapter `a`, if any. */
  function StoreOps(s: State, l: Label, a: nat): seq<Operation> {
    if !(l.Work? && l.a == a && a < |s.workers|) then [] else
    match s.workers[a]
    case Inserting(con, v, es, i) => if i < |es| then [Operation.Emplace(SubscriptionFor(v, con, es[i]))] else []
    case Erasing(fs, i) => if i < |fs| then [Operation.EraseTopic(fs[i])] else []
    case Closing(con) => [Operation.EraseConnection(con)]
    case _ => []
  }

  function Flattened(ops: seq<seq<Operation>>): seq<Operation> {
    if ops == [] then [] else Flattened(ops[..|ops| - 1]) + ops[|ops| - 1]
  }

  /** The store operations of the first `i` steps of a run at adapter `a`. */
  function StoreHistory(states: seq<State>, labels: seq<Label>, i: nat, a: nat): seq<Operation>
    requires i <= |labels| && |states| == |labels| + 1
  {
    Flattened(seq(i, k requires 0 <= k < i => StoreOps(states[k], labels[k], a)))
  }

  /** At most one operation leads from one store to the next. */
  ghost predicate StoreStep(before: seq<Subscription>, ops: seq<Operation>, after: seq<Subscription>) {
    |ops| <= 1 && after == if ops == [] then before else ApplyToView(ByTopic, before, ops[0])
  }

  lemma StepKeepsStore(scopes: seq<Scope>, s: State, l: Label, s': State, a: nat)
    requires Shaped(scopes, s) && Next(scopes, s, l, s') && a < |scopes|
    ensures Shaped(scopes, s')
    ensures StoreStep(s.nodes[a].subs, StoreOps(s, l, a), s'.nodes[a].subs)
  {
    match l
    case Work(b) =>
    case Drive(timeout) => ControlOnlyLogs(scopes, s, timeout, a);
    case Receive(b, ev) =>
    case RequestStop =>
  }

  lemma RunExtends(ops: seq<Operation>, more: seq<Operation>, after: seq<Subscription>)
    requires StoreStep(RunOnView(ByTopic, ops), more, after)
    ensures after == RunOnView(ByTopic, ops + more)
  {
    if more == [] {
      assert ops + more == ops;
    } else {
      assert (ops + more)[..|ops|] == ops && more == [more[0]];
    }
  }

  lemma {:induction false} StoreAlong(views: seq<seq<Subscription>>, ops: seq<seq<Operation>>)
    requires |views| == |ops| + 1 && views[0] == []
    requires forall k :: 0 <= k < |ops| ==> StoreStep(views[k], ops[k], views[k + 1])
    ensures views[|ops|] == RunOnView(ByTopic, Flattened(ops))
    decreases |ops|
  {
    if ops != [] {
      var n := |ops| - 1;
      StoreAlong(views[..n + 1], ops[..n]);
      assert StoreStep(views[n], ops[n], views[n + 1]);
      RunExtends(Flattened(ops[..n]), ops[n], views[n + 1]);
    }
  }

  /** At every point of every run an adapter's store is the result of the operations so far. */
  lemma StoreIsHistory(scopes: seq<Scope>, states: seq<State>, labels: seq<Label>, i: nat, a: nat)
    requires Run(scopes, states, labels) && i < |states| && a < |scopes|
    ensures Shaped(scopes, states[i])
    ensures states[i].nodes[a].subs == RunOnView(ByTopic, StoreHistory(states, labels, i, a))
  {
    forall k | 0 <= k <= i ensures Shaped(scopes, states[k]) { RunKeepsHistory(scopes, states, labels, k); }
    var views := seq(i + 1, k requires 0 <= k <= i => states[k].nodes[a].subs);
    var ops := seq(i, k requires 0 <= k < i => StoreOps(states[k], labels[k], a));
    forall k | 0 <= k < i ensures StoreStep(views[k], ops[k], views[k + 1]) {
      StepKeepsStore(scopes, states[k], labels[k], states[k + 1], a);
    }
    assert states[0].nodes[a] == EMPTY_NODE;
    StoreAlong(views, ops);
  }

  lemma LaterMeansErased(ops: seq<Operation>, key: Key, i: int, j: int)
    requires 0 <= i < j < |ops| && Inserts(ops[i], key) && EarliestLive(ops, key, j)
    ensures ErasedBetween(ops, key, i + 1, |ops|)
  {
    assert ErasedBetween(ops, key, i + 1, j);
    var e :| 0 <= i + 1 <= e < j <= |ops| && Erases(ops[e], key);
  }

  lemma EarliestIsUnique(ops: seq<Operation>, key: Key)
    ensures forall i, j :: EarliestLive(ops, key, i) && EarliestLive(ops, key, j) ==> i == j
  {
    forall i, j | EarliestLive(ops, key, i) && EarliestLive(ops, key, j) ensures i == j {
      if i < j {
        LaterMeansErased(ops, key, i, j);
      } else if j < i {
        LaterMeansErased(ops, key, j, i);
      }
    }
  }

  /** In every reachable state, whatever the interleaving of handlers, a subscription is stored
      exactly when its insertion was the earliest one of its key since the key was last erased. */
  lemma StoredSubscriptionsAreEarliest(scopes: seq<Scope>, states: seq<State>, labels: seq<Label>, i: nat, a: nat,
                                       sub: Subscription)
    requires Run(scopes, states, labels) && i < |states| && a < |scopes|
    ensures Shaped(scopes, states[i])
    ensures var ops := StoreHistory(states, labels, i, a);
            sub in states[i].nodes[a].subs
            <==> exists j :: EarliestLive(ops, KeyOf(sub), j) && ops[j].sub == sub
  {
    StoreIsHistory(scopes, states, labels, i, a);
    var ops := StoreHistory(states, labels, i, a);
    ViewsRefineOneMap(ByTopic, ops);
    RecordIsEarliestInsertion(ops, KeyOf(sub));
    EarliestIsUnique(ops, KeyOf(sub));
  }

  /** What a step adds at an adapter goes to no connection that is closed there. */
  ghost predicate SendsToOpen(n: Node, m: Node) {
    && n.sent <= m.sent && n.closed <= m.closed
    && forall k :: |n.sent| <= k < |m.sent| ==> m.sent[k].delivery.con !in n.closed
  }

  lemma SentForOpen(n: Node, origin: nat, index: nat, src: Source, i: nat)
    requires SubsInv(n) && n.open.Keys !! n.closed && i < |n.subs|
    ensures forall e :: e in SentFor(origin, index, src, n.subs[i]) ==> e.delivery.con !in n.closed
  {
    CopiesShape(src, n.subs[i]);
    assert n.subs[i] in n.subs;
  }

  lemma DriveSendsToOpen(scopes: seq<Scope>, s: State, timeout: bool, a: nat)
    requires a < |s.nodes| && a < |s.workers| && SessionInv(s.workers[a], s.nodes[a])
    ensures |ControlStep(scopes, s, timeout).nodes| == |s.nodes|
    ensures SendsToOpen(s.nodes[a], ControlStep(scopes, s, timeout).nodes[a])
  {
    if s.control.Injecting? && s.control.a == a && s.queue != [] && s.control.i < |s.nodes[a].subs| {
      SentForOpen(s.nodes[a], s.queue[0].origin, s.queue[0].index, FromQueue(s.queue[0].message), s.control.i);
    } else {
      assert ControlStep(scopes, s, timeout).nodes[a].sent == s.nodes[a].sent;
    }
  }

  lemma WorkSendsToOpen(a: nat, pc: Pc, n: Node)
    requires SessionInv(pc, n)
    ensures SendsToOpen(n, WorkerStep(a, pc, n).node)
  {
    if pc.Publishing? && pc.i < |n.subs| {
      SentForOpen(n, a, pc.k, FromHandler(pc.p), pc.i);
    } else {
      assert WorkerStep(a, pc, n).node.sent == n.sent;
    }
  }

  lemma StepSendsToOpen(scopes: seq<Scope>, s: State, l: Label, s': State, a: nat)
    requires HistoryInv(scopes, s) && Next(scopes, s, l, s') && a < |scopes|
    ensures |s'.nodes| == |s.nodes| && SendsToOpen(s.nodes[a], s'.nodes[a])
  {
    assert SessionInv(s.workers[a], s.nodes[a]);
    match l
    case Work(b) => if a == b { WorkSendsToOpen(a, s.workers[a], s.nodes[a]); }
    case Drive(timeout) => DriveSendsToOpen(scopes, s, timeout, a);
    case Receive(b, ev) =>
    case RequestStop =>
  }

  /** `m` is a later state of the adapter in which `con` is closed and got nothing since `n`. */
  ghost predicate SilentSince(n: Node, m: Node, con: Connection) {
    && n.sent <= m.sent && con in m.closed
    && forall k :: |n.sent| <= k < |m.sent| ==> m.sent[k].delivery.con != con
  }

  lemma SilenceExtends(n: Node, m: Node, m': Node, con: Connection)
    requires SilentSince(n, m, con) && SendsToOpen(m, m')
    ensures SilentSince(n, m', con)
  {}

  lemma RunStepSendsToOpen(scopes: seq<Scope>, states: seq<State>, labels: seq<Label>, j: nat, a: nat)
    requires Run(scopes, states, labels) && j < |labels| && a < |scopes|
    ensures |states[j].nodes| == |states[j + 1].nodes| == |scopes|
    ensures SendsToOpen(states[j].nodes[a], states[j + 1].nodes[a])
  {
    RunKeepsHistory(scopes, states, labels, j);
    StepSendsToOpen(scopes, states[j], labels[j], states[j + 1], a);
  }

  lemma {:induction false} SilenceAlong(nodes: seq<Node>, i: nat, j: nat, con: Connection)
    requires i <= j < |nodes| && con in nodes[i].closed
    requires forall k :: 0 <= k < |nodes| - 1 ==> SendsToOpen(nodes[k], nodes[k + 1])
    ensures SilentSince(nodes[i], nodes[j], con)
    decreases j
  {
    if i < j {
      SilenceAlong(nodes, i, j - 1, con);
      SilenceExtends(nodes[i], nodes[j - 1], nodes[j], con);
    }
  }

  /** The states of one adapter along a run. */
  lemma NodesAlong(scopes: seq<Scope>, states: seq<State>, labels: seq<Label>, a: nat) returns (nodes: seq<Node>)
    requires Run(scopes, states, labels) && a < |scopes|
    ensures |nodes| == |states|
    ensures forall k :: 0 <= k < |states| ==> a < |states[k].nodes| && nodes[k] == states[k].nodes[a]
    ensures forall k :: 0 <= k < |nodes| - 1 ==> SendsToOpen(nodes[k], nodes[k + 1])
  {
    forall k | 0 <= k < |states| ensures a < |states[k].nodes| {
      RunKeepsHistory(scopes, states, labels, k);
    }
    nodes := seq(|states|, k requires 0 <= k < |states| => states[k].nodes[a]);
    forall k | 0 <= k < |nodes| - 1 ensures SendsToOpen(nodes[k], nodes[k + 1]) {
      RunStepSendsToOpen(scopes, states, labels, k, a);
    }
  }

  /** Once the close of a connection has finished, no later step delivers to it, whatever the
      control thread was injecting when the close began. */
  lemma SilenceAfterClose(scopes: seq<Scope>, states: seq<State>, labels: seq<Label>, i: nat, j: nat, a: nat,
                          con: Connection)
    requires Run(scopes, states, labels) && i <= j < |states| && a < |scopes|
    requires a < |states[i].nodes| && con in states[i].nodes[a].closed
    ensures a < |states[j].nodes| && SilentSince(states[i].nodes[a], states[j].nodes[a], con)
  {
    var nodes := NodesAlong(scopes, states, labels, a);
    SilenceAlong(nodes, i, j, con);
  }

  // ----- When everything has settled ----------------------------------------------------------------------------

  ghost predicate Settled(s: State) {
    && s.queue == []
    && forall a :: 0 <= a < |s.workers| ==> s.workers[a] == Idle
  }

  /** When no handler runs and the queue is empty, every publication has had exactly one loop at
      its own adapter, and at every other adapter exactly one injection, in order, if and only if
      the scope there includes its topic. */
  lemma SettledDelivery(scopes: seq<Scope>, states: seq<State>, labels: seq<Label>, i: nat, a: nat, b: nat)
    requires Run(scopes, states, labels) && i < |states| && a < |scopes| && b < |scopes| && a != b
    requires Settled(states[i])
    ensures Shaped(scopes, states[i])
    ensures ItemsFrom(Injections(states[i].nodes[a].loops), b)
            == Admitted(scopes, a, ItemsOf(b, states[i].nodes[b].published))
    ensures IncreasingItems(Injections(states[i].nodes[a].loops))
    ensures forall k :: 0 <= k < |states[i].nodes[b].published| ==>
              var p := states[i].nodes[b].published[k];
              Item(b, k, QueuedForm(p)) in Injections(states[i].nodes[a].loops) <==> Includes(scopes[a], p.topic)
    ensures |OwnLoops(states[i].nodes[b].loops, b)| == |states[i].nodes[b].published|
    ensures forall k :: 0 <= k < |states[i].nodes[b].published| ==>
              OwnLoops(states[i].nodes[b].loops, b)[k].src == FromHandler(states[i].nodes[b].published[k])
  {
    RunKeepsHistory(scopes, states, labels, i);
    SettledInjections(scopes, states[i], a, b);
    InjectedItems(scopes, states[i], a);
    forall k | 0 <= k < |states[i].nodes[b].published|
      ensures var p := states[i].nodes[b].published[k];
              Item(b, k, QueuedForm(p)) in Injections(states[i].nodes[a].loops) <==> Includes(scopes[a], p.topic)
    {
      SettledItem(scopes, a, b, Injections(states[i].nodes[a].loops), states[i].nodes[b].published, k);
    }
    SettledLoops(scopes, states[i], b);
  }

  lemma SettledItem(scopes: seq<Scope>, a: nat, b: nat, injected: seq<Item>, published: seq<Publish>, k: nat)
    requires a < |scopes| && a != b && k < |published|
    requires ItemsFrom(injected, b) == Admitted(scopes, a, ItemsOf(b, published))
    ensures Item(b, k, QueuedForm(published[k])) in injected <==> Includes(scopes[a], published[k].topic)
  {
    ItemsFromMembers(injected, b);
    AdmittedMembers(scopes, a, ItemsOf(b, published));
    ItemsOfMembers(b, published);
    assert ItemsOf(b, published)[k] in ItemsOf(b, published);
  }

  lemma SettledAdmitted(scopes: seq<Scope>, s: State, a: nat)
    requires Shaped(scopes, s) && QueueInv(scopes, s) && Settled(s) && a < |scopes| && RemoteInv(scopes, s, a)
    ensures Injections(s.nodes[a].loops) == Admitted(scopes, a, s.pushed)
  {
    assert s.dispatched + s.queue == s.dispatched;
    assert BegunItems(scopes, s, a) == [];
    assert Admitted(scopes, a, s.dispatched) + [] == Admitted(scopes, a, s.dispatched);
  }

  lemma SettledPushes(s: State, b: nat)
    requires |s.nodes| == |s.workers| && Settled(s) && b < |s.nodes| && OriginInv(s, b)
    ensures ItemsFrom(s.pushed, b) == ItemsOf(b, s.nodes[b].published)
  {
    var published := s.nodes[b].published;
    assert Core(Idle) == Idle;
    assert PushedCount(Core(s.workers[b]), s.nodes[b]) == |published|;
    assert published[..|published|] == published;
  }

  lemma SettledInjections(scopes: seq<Scope>, s: State, a: nat, b: nat)
    requires HistoryInv(scopes, s) && Settled(s) && a < |scopes| && b < |scopes|
    ensures ItemsFrom(Injections(s.nodes[a].loops), b) == Admitted(scopes, a, ItemsOf(b, s.nodes[b].published))
  {
    assert AdapterInv(scopes, s, a) && AdapterInv(scopes, s, b);
    SettledAdmitted(scopes, s, a);
    SettledPushes(s, b);
    AdmittedCommutes(scopes, a, s.pushed, b);
  }

  lemma SettledLoops(scopes: seq<Scope>, s: State, b: nat)
    requires HistoryInv(scopes, s) && Settled(s) && b < |scopes|
    ensures |OwnLoops(s.nodes[b].loops, b)| == |s.nodes[b].published|
    ensures forall k :: 0 <= k < |s.nodes[b].published| ==>
              OwnLoops(s.nodes[b].loops, b)[k].src == FromHandler(s.nodes[b].published[k])
  {
    assert AdapterInv(scopes, s, b);
    assert Core(Idle) == Idle;
  }
}
