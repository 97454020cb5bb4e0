/** What a handler has done once its worker is idle again, whatever the other threads did beside
    it. */
module Handlers {
  import opened Mqtt
  import opened Scopes
  import opened Subscriptions
  import opened Topics
  import opened Publications
  import opened Machine
  import opened Sessions
  import opened Logs
  import opened History
  import opened Guarantees
  import Brokers

  // ----- The effect of each event -----------------------------------------------------------------

  ghost predicate SameSessions(b: Node, n: Node) {
    n.connections == b.connections && n.accepted == b.accepted && n.open == b.open && n.closed == b.closed
  }

  /** Nothing of the connection is left: a metadata entry only if a delivery to it was logged
      since; the others keep what they had. */
  ghost predicate HasClosed(b: Node, n: Node, con: Connection) {
    && n.connections == b.connections - {con} && n.open == b.open - {con} && n.closed == b.closed + {con}
    && n.accepted == b.accepted && n.published == b.published
    && n.subs == Without(b.subs, OfConnection(con))
    && LookedUp(b, n, con)
  }

  /** If the connection has a metadata entry, something was sent to it since. */
  ghost predicate LookedUp(b: Node, n: Node, con: Connection) {
    b.sent <= n.sent && (con in n.meta ==> SentTo(b.sent, n.sent, con))
  }

  ghost predicate SentTo(before: seq<Sent>, after: seq<Sent>, con: Connection) {
    exists k :: |before| <= k < |after| && after[k].delivery.con == con
  }

  /** A loop for the publication went over the records stored when it came in. */
  ghost predicate LoopedOver(b: Node, n: Node, p: Publish) {
    exists x :: 0 <= x < |n.loops| && LoopFor(n.loops[x], b, p)
  }

  ghost predicate LoopFor(loop: Loop, b: Node, p: Publish) {
    loop.src == FromHandler(p) && loop.index == |b.published| && loop.subs == b.subs
  }

  /** The adapter's node when the handler has returned, from the node when the event came in. */
  ghost predicate Done(ev: Event, b: Node, n: Node) {
    match ev
    case OnAccept(con) =>
      && n.accepted == b.accepted + {con} && n.connections == b.connections && n.open == b.open
      && n.closed == b.closed && n.subs == b.subs && n.published == b.published
    case OnConnect(con, v) =>
      && n.connections == b.connections + {con} && n.open == b.open[con := v] && n.accepted == b.accepted
      && n.closed == b.closed && n.subs == b.subs && n.published == b.published
    case OnPublish(p) =>
      SameSessions(b, n) && n.subs == b.subs && n.published == b.published + [p] && LoopedOver(b, n, p)
    case OnSubscribe(con, es) =>
      && SameSessions(b, n) && n.published == b.published && con in b.open
      && n.subs == Brokers.SubscribedView(b.subs, b.open[con], con, es)
    case OnUnsubscribe(_, fs) =>
      SameSessions(b, n) && n.published == b.published && n.subs == Brokers.UnsubscribedView(b.subs, fs)
    case OnDisconnect(con) => HasClosed(b, n, con)
    case OnClose(con) => HasClosed(b, n, con)
    case OnError(con) =>
      if con in b.connections then HasClosed(b, n, con)
      else SameSessions(b, n) && n.published == b.published && n.subs == b.subs
  }

  // ----- On the way there ----------------------------------------------------------------------------

  ghost predicate Subscribed(b: Node, n: Node, v: Version, con: Connection, es: seq<Entry>, i: nat) {
    && SameSessions(b, n) && n.published == b.published && i <= |es|
    && n.subs == Brokers.SubscribedView(b.subs, v, con, es[..i])
  }

  ghost predicate Subscribes(b: Node, core: Pc, n: Node, con: Connection, es: seq<Entry>)
    requires con in b.open
  {
    var v := b.open[con];
    match core
    case Idle => Subscribed(b, n, v, con, es, |es|)
    case Subscribing(_, _, _, i) => core == Subscribing(con, v, es, i) && Subscribed(b, n, v, con, es, i)
    case WantSubsInsert(_, _, _, i) =>
      && core == WantSubsInsert(con, v, es, i) && Subscribed(b, n, v, con, es, i)
      && i < |es| && AcceptedFilter(es[i].filter)
    case Inserting(_, _, _, i) =>
      && core == Inserting(con, v, es, i) && Subscribed(b, n, v, con, es, i)
      && i < |es| && AcceptedFilter(es[i].filter)
    case _ => false
  }

  ghost predicate Unsubscribed(b: Node, n: Node, fs: seq<string>, i: nat) {
    && SameSessions(b, n) && n.published == b.published && i <= |fs|
    && n.subs == Brokers.UnsubscribedView(b.subs, fs[..i])
  }

  ghost predicate Unsubscribes(b: Node, core: Pc, n: Node, fs: seq<string>) {
    match core
    case Idle => Unsubscribed(b, n, fs, |fs|)
    case WantSubsErase(_) => core == WantSubsErase(fs) && Unsubscribed(b, n, fs, 0)
    case Erasing(_, i) => core == Erasing(fs, i) && Unsubscribed(b, n, fs, i)
    case _ => false
  }

  ghost predicate HasUnregistered(b: Node, n: Node, con: Connection) {
    && n.connections == b.connections - {con} && n.open == b.open && n.closed == b.closed
    && n.accepted == b.accepted && n.published == b.published && n.subs == b.subs && LookedUp(b, n, con)
  }

  ghost predicate Closes(b: Node, core: Pc, n: Node, con: Connection) {
    match core
    case Idle => HasClosed(b, n, con)
    case Unregistering(_) =>
      && core == Unregistering(con) && SameSessions(b, n) && n.published == b.published && n.subs == b.subs
      && b.sent <= n.sent
    case WantSubsClose(_) => core == WantSubsClose(con) && HasUnregistered(b, n, con)
    case Closing(_) => core == Closing(con) && HasUnregistered(b, n, con)
    case _ => false
  }

  ghost predicate Publishes(b: Node, core: Pc, n: Node, p: Publish) {
    && SameSessions(b, n) && n.subs == b.subs && n.published == b.published + [p]
    && (core == Idle || (InFlight(core) && core.p == p && core.k == |b.published|))
    && (core.WantSubsPublish? || LoopedOver(b, n, p))
  }

  /** The worker is handling the event and stands at `core`. */
  ghost predicate Serving(ev: Event, b: Node, core: Pc, n: Node) {
    match ev
    case OnSubscribe(con, es) => con in b.open && Subscribes(b, core, n, con, es)
    case OnUnsubscribe(_, fs) => Unsubscribes(b, core, n, fs)
    case OnDisconnect(con) => Closes(b, core, n, con)
    case OnClose(con) => Closes(b, core, n, con)
    case OnError(con) => if con in b.connections then Closes(b, core, n, con) else core == Idle && Done(ev, b, n)
    case OnPublish(p) => Publishes(b, core, n, p)
    case _ => core == Idle && Done(ev, b, n)
  }

  lemma ServedIsDone(ev: Event, b: Node, n: Node)
    requires Serving(ev, b, Idle, n)
    ensures Done(ev, b, n)
  {
    match ev
    case OnSubscribe(con, es) => assert es[..|es|] == es;
    case OnUnsubscribe(con, fs) => assert fs[..|fs|] == fs;
    case _ =>
  }

  lemma ReceivedServes(n: Node, ev: Event)
    requires ev.OnSubscribe? ==> ev.con in n.open
    ensures Serving(ev, n, Core(Received(n, ev).0), Received(n, ev).1)
  {
    match ev
    case OnConnect(_, _) => assert Core(WantLog(WantLog(Idle))) == Core(WantLog(Idle)) == Idle;
    case OnPublish(p) =>
      assert Core(WantLog(WantSubsPublish(|n.published|, p))) == WantSubsPublish(|n.published|, p);
    case OnSubscribe(con, es) =>
      assert Core(WantLog(Subscribing(con, n.open[con], es, 0))) == Subscribing(con, n.open[con], es, 0);
      assert es[..0] == [];
    case OnUnsubscribe(con, fs) =>
      assert Core(WantLog(WantSubsErase(fs))) == WantSubsErase(fs);
      assert fs[..0] == [];
    case OnDisconnect(con) => assert Core(WantLog(Unregistering(con))) == Unregistering(con);
    case OnClose(con) => assert Core(WantLog(Unregistering(con))) == Unregistering(con);
    case OnError(con) => assert Core(WantLog(Unregistering(con))) == Unregistering(con);
    case _ =>
  }

  lemma WorkSubscribes(b: Node, a: nat, pc: Pc, n: Node, con: Connection, es: seq<Entry>)
    requires con in b.open && pc != Idle && Subscribes(b, Core(pc), n, con, es)
    ensures var e := WorkerStep(a, pc, n); Subscribes(b, Core(e.pc), e.node, con, es)
  {
    if pc.Subscribing? {
      assert Core(WantLog(Idle)) == Idle;
      if pc.i < |es| { assert es[..pc.i + 1][..pc.i] == es[..pc.i]; }
    } else if pc.Inserting? {
      assert es[..pc.i + 1][..pc.i] == es[..pc.i];
    }
  }

  lemma WorkUnsubscribes(b: Node, a: nat, pc: Pc, n: Node, fs: seq<string>)
    requires pc != Idle && Unsubscribes(b, Core(pc), n, fs)
    ensures var e := WorkerStep(a, pc, n); Unsubscribes(b, Core(e.pc), e.node, fs)
  {
    assert Core(WantLog(Idle)) == Idle;
    if pc.Erasing? && pc.i < |fs| { assert fs[..pc.i + 1][..pc.i] == fs[..pc.i]; }
  }

  lemma WorkCloses(b: Node, a: nat, pc: Pc, n: Node, con: Connection)
    requires pc != Idle && Closes(b, Core(pc), n, con)
    ensures var e := WorkerStep(a, pc, n); Closes(b, Core(e.pc), e.node, con)
  {}

  lemma WorkPublishes(b: Node, a: nat, pc: Pc, n: Node, p: Publish)
    requires pc != Idle && Publishes(b, Core(pc), n, p)
    ensures var e := WorkerStep(a, pc, n); Publishes(b, Core(e.pc), e.node, p)
  {
    var m := WorkerStep(a, pc, n).node;
    if pc.WantSubsPublish? {
      assert LoopFor(m.loops[|n.loops|], b, p);
    } else {
      LoopsOfWork(a, pc, n);
      if pc.Publishing? { PublishingMoves(a, pc.k, pc.p, pc.i, n); }
      if pc.Publishing? {
        assert Core(WantLog(Publishing(pc.k, pc.p, pc.i + 1))) == Publishing(pc.k, pc.p, pc.i + 1);
      }
    }
  }

  lemma WorkRests(a: nat, pc: Pc, n: Node)
    requires pc != Idle && Core(pc) == Idle
    ensures Core(WorkerStep(a, pc, n).pc) == Idle && WorkerStep(a, pc, n).node == n
  {}

  lemma WorkServes(ev: Event, b: Node, a: nat, pc: Pc, n: Node)
    requires pc != Idle && Serving(ev, b, Core(pc), n)
    ensures Serving(ev, b, Core(WorkerStep(a, pc, n).pc), WorkerStep(a, pc, n).node)
  {
    match ev
    case OnSubscribe(con, es) => WorkSubscribes(b, a, pc, n, con, es);
    case OnUnsubscribe(_, fs) => WorkUnsubscribes(b, a, pc, n, fs);
    case OnDisconnect(con) => WorkCloses(b, a, pc, n, con);
    case OnClose(con) => WorkCloses(b, a, pc, n, con);
    case OnError(con) => if con in b.connections { WorkCloses(b, a, pc, n, con); } else { WorkRests(a, pc, n); }
    case OnPublish(p) => WorkPublishes(b, a, pc, n, p);
    case _ => WorkRests(a, pc, n);
  }

  // ----- Beside the other threads ---------------------------------------------------------------------

  /** All that a thread other than the worker may do to the adapter: loop over it, send, and look
      recipients up. */
  ghost predicate OnlySends(n: Node, m: Node) {
    && OnlyLogged(n, m) && n.sent <= m.sent && n.loops <= m.loops
    && forall c :: c in m.meta && c !in n.meta ==> SentTo(n.sent, m.sent, c)
  }

  lemma SendOneOnlySends(n: Node, origin: nat, index: nat, src: Source, i: nat)
    requires i < |n.subs|
    ensures OnlySends(n, SendOne(n, origin, index, src, n.subs[i]))
  {
    CopiesShape(src, n.subs[i]);
    var m := SendOne(n, origin, index, src, n.subs[i]);
    var out := SentFor(origin, index, src, n.subs[i]);
    if out != [] { assert m.sent[|n.sent|] == out[0]; }
  }

  lemma DriveOnlySends(scopes: seq<Scope>, s: State, timeout: bool, a: nat)
    requires a < |s.nodes|
    ensures |ControlStep(scopes, s, timeout).nodes| == |s.nodes|
    ensures OnlySends(s.nodes[a], ControlStep(scopes, s, timeout).nodes[a])
  {
    if s.control.Injecting? && s.control.a == a && s.queue != [] && s.control.i < |s.nodes[a].subs| {
      var item := s.queue[0];
      SendOneOnlySends(s.nodes[a], item.origin, item.index, FromQueue(item.message), s.control.i);
    }
  }

  lemma LookupsExtend(b: Node, n: Node, m: Node, con: Connection)
    requires LookedUp(b, n, con) && OnlySends(n, m)
    ensures LookedUp(b, m, con)
  {
    if con in m.meta {
      if con in n.meta {
        var k :| |b.sent| <= k < |n.sent| && n.sent[k].delivery.con == con;
        assert m.sent[k] == n.sent[k];
      } else {
        var k :| |n.sent| <= k < |m.sent| && m.sent[k].delivery.con == con;
        assert |b.sent| <= k;
      }
    }
  }

  lemma ClosesBeside(b: Node, core: Pc, n: Node, m: Node, con: Connection)
    requires Closes(b, core, n, con) && OnlySends(n, m)
    ensures Closes(b, core, m, con)
  {
    if !core.Unregistering? { LookupsExtend(b, n, m, con); }
  }

  lemma PublishesBeside(b: Node, core: Pc, n: Node, m: Node, p: Publish)
    requires Publishes(b, core, n, p) && OnlySends(n, m)
    ensures Publishes(b, core, m, p)
  {
    if LoopedOver(b, n, p) {
      var x :| 0 <= x < |n.loops| && LoopFor(n.loops[x], b, p);
      assert m.loops[x] == n.loops[x];
    }
  }

  lemma ServesBeside(ev: Event, b: Node, core: Pc, n: Node, m: Node)
    requires Serving(ev, b, core, n) && OnlySends(n, m)
    ensures Serving(ev, b, core, m)
  {
    match ev
    case OnDisconnect(con) => ClosesBeside(b, core, n, m, con);
    case OnClose(con) => ClosesBeside(b, core, n, m, con);
    case OnError(con) => if con in b.connections { ClosesBeside(b, core, n, m, con); }
    case OnPublish(p) => PublishesBeside(b, core, n, m, p);
    case _ =>
  }

  lemma NextServes(scopes: seq<Scope>, s: State, l: Label, s': State, a: nat, ev: Event, b: Node)
    requires Shaped(scopes, s) && Next(scopes, s, l, s') && a < |scopes|
    requires s.workers[a] != Idle && Serving(ev, b, Core(s.workers[a]), s.nodes[a])
    ensures Shaped(scopes, s') && Serving(ev, b, Core(s'.workers[a]), s'.nodes[a])
  {
    match l
    case Work(c) => if a == c { WorkServes(ev, b, a, s.workers[a], s.nodes[a]); }
    case Drive(timeout) =>
      DriveOnlySends(scopes, s, timeout, a);
      ServesBeside(ev, b, Core(s.workers[a]), s.nodes[a], s'.nodes[a]);
    case Receive(c, ev') =>
    case RequestStop =>
  }

  // ----- Over runs -------------------------------------------------------------------------------------

  /** Step `i` brings the event to adapter `a`, whose worker is busy from then until `j`. */
  ghost predicate Busy(states: seq<State>, labels: seq<Label>, i: nat, j: nat, a: nat, ev: Event) {
    && i < j < |states| && i < |labels| && labels[i] == Receive(a, ev)
    && forall k :: i < k < j ==> a < |states[k].workers| && states[k].workers[a] != Idle
  }

  lemma {:induction false} ServingAlong(scopes: seq<Scope>, states: seq<State>, labels: seq<Label>, i: nat, j: nat,
                                        a: nat, ev: Event)
    requires Run(scopes, states, labels) && Busy(states, labels, i, j, a, ev) && a < |scopes|
    ensures Shaped(scopes, states[i]) && Shaped(scopes, states[j])
    ensures Serving(ev, states[i].nodes[a], Core(states[j].workers[a]), states[j].nodes[a])
    decreases j
  {
    if j == i + 1 {
      RunKeepsHistory(scopes, states, labels, i);
      assert Next(scopes, states[i], labels[i], states[i + 1]);
      ReceivedServes(states[i].nodes[a], ev);
    } else {
      ServingAlong(scopes, states, labels, i, j - 1, a, ev);
      NextServes(scopes, states[j - 1], labels[j - 1], states[j], a, ev, states[i].nodes[a]);
    }
  }

  /** What every handler has done when its worker is idle again, in every run: the effect of its
      event on the adapter, as if no other thread had run, but for what is sent. */
  lemma HandlerEffect(scopes: seq<Scope>, states: seq<State>, labels: seq<Label>, i: nat, j: nat, a: nat, ev: Event)
    requires Run(scopes, states, labels) && Busy(states, labels, i, j, a, ev) && a < |scopes|
    requires a < |states[j].workers| && states[j].workers[a] == Idle
    ensures Shaped(scopes, states[i]) && Shaped(scopes, states[j])
    ensures Done(ev, states[i].nodes[a], states[j].nodes[a])
  {
    ServingAlong(scopes, states, labels, i, j, a, ev);
    assert Core(Idle) == Idle;
    ServedIsDone(ev, states[i].nodes[a], states[j].nodes[a]);
  }

  // ----- A publication reaches who it is for ---------------------------------------------------------

  /** The finished loop for a publication is among the adapter's loops, uncut. */
  lemma OwnLoopIsPassed(scopes: seq<Scope>, s: State, a: nat, x: nat)
    requires HistoryInv(scopes, s) && a < |scopes| && s.workers[a] == Idle
    requires x < |s.nodes[a].loops| && s.nodes[a].loops[x].src.FromHandler?
    ensures SentMatches(s.nodes[a], ActiveLoop(s, a))
    ensures x < |LoopsSoFar(s.nodes[a], ActiveLoop(s, a))|
    ensures LoopsSoFar(s.nodes[a], ActiveLoop(s, a))[x] == s.nodes[a].loops[x]
  {
    assert AdapterInv(scopes, s, a);
    assert Core(Idle) == Idle;
  }

  /** When the handler of a publication has returned, every record that was stored when it came in
      and that it is for has got it, on its own connection. */
  lemma PublicationReaches(scopes: seq<Scope>, states: seq<State>, labels: seq<Label>, i: nat, j: nat, a: nat,
                           p: Publish, sub: Subscription)
    requires Run(scopes, states, labels) && Busy(states, labels, i, j, a, OnPublish(p)) && a < |scopes|
    requires a < |states[j].workers| && states[j].workers[a] == Idle
    requires a < |states[i].nodes| && sub in states[i].nodes[a].subs && Addressed(FromHandler(p), sub)
    ensures a < |states[j].nodes|
    ensures exists e :: e in states[j].nodes[a].sent && e.index == |states[i].nodes[a].published| && e.sub == sub
                        && e.delivery.con == sub.con && [e.delivery] == Copies(FromHandler(p), sub)
  {
    HandlerEffect(scopes, states, labels, i, j, a, OnPublish(p));
    RunKeepsHistory(scopes, states, labels, j);
    var b, n := states[i].nodes[a], states[j].nodes[a];
    var x :| 0 <= x < |n.loops| && LoopFor(n.loops[x], b, p);
    var y :| 0 <= y < |b.subs| && b.subs[y] == sub;
    OwnLoopIsPassed(scopes, states[j], a, x);
    NothingIsLost(scopes, states, labels, j, a, x, y);
    var e :| e in n.sent && EntryOf(e, n.loops[x]) && e.sub == sub;
    CopiesShape(FromHandler(p), sub);
  }

  /** And its item has been pushed, for the other adapters. */
  lemma PublicationIsPushed(scopes: seq<Scope>, states: seq<State>, labels: seq<Label>, i: nat, j: nat, a: nat,
                            p: Publish)
    requires Run(scopes, states, labels) && Busy(states, labels, i, j, a, OnPublish(p)) && a < |scopes|
    requires a < |states[j].workers| && states[j].workers[a] == Idle
    ensures a < |states[i].nodes|
    ensures Item(a, |states[i].nodes[a].published|, QueuedForm(p)) in states[j].pushed
  {
    HandlerEffect(scopes, states, labels, i, j, a, OnPublish(p));
    PushesArePublications(scopes, states, labels, j, a);
    assert Core(Idle) == Idle;
    var ps, k := states[j].nodes[a].published, |states[i].nodes[a].published|;
    ItemsOfMembers(a, ps);
    ItemsFromMembers(states[j].pushed, a);
    assert ItemsOf(a, ps)[k] in ItemsFrom(states[j].pushed, a);
  }

  // ----- A close takes effect ---------------------------------------------------------------------------

  /** The events that end the session of a connection. */
  ghost predicate Ends(ev: Event, b: Node, con: Connection) {
    || ev == OnDisconnect(con) || ev == OnClose(con)
    || (ev == OnError(con) && con in b.connections)
  }

  /** The first moment after step `i` at which the worker is idle. */
  lemma {:induction false} FirstIdle(states: seq<State>, labels: seq<Label>, i: nat, j: nat, a: nat, ev: Event)
      returns (k: nat)
    requires i < j < |states| && i < |labels| && labels[i] == Receive(a, ev)
    requires forall m :: 0 <= m < |states| ==> a < |states[m].workers|
    requires states[j].workers[a] == Idle
    ensures i < k <= j && Busy(states, labels, i, k, a, ev) && states[k].workers[a] == Idle
    decreases j
  {
    if m :| i < m < j && states[m].workers[a] == Idle {
      k := FirstIdle(states, labels, i, m, a, ev);
    } else {
      k := j;
    }
  }

  /** In every run, once the worker is idle after a DISCONNECT, a close, or an error on a registered
      connection, the connection is closed: no record of it is stored, and from the end of that
      handler on nothing is sent to it. */
  lemma EndOfSession(scopes: seq<Scope>, states: seq<State>, labels: seq<Label>, i: nat, j: nat, a: nat, ev: Event,
                     con: Connection) returns (k: nat)
    requires Run(scopes, states, labels) && i < j < |states| && i < |labels| && labels[i] == Receive(a, ev)
    requires a < |scopes| && a < |states[i].nodes| && Ends(ev, states[i].nodes[a], con)
    requires a < |states[j].workers| && states[j].workers[a] == Idle
    ensures a < |states[j].nodes| && con in states[j].nodes[a].closed
    ensures con !in states[j].nodes[a].connections
    ensures forall sub :: sub in states[j].nodes[a].subs ==> sub.con != con
    ensures i < k <= j && Busy(states, labels, i, k, a, ev)
    ensures a < |states[k].nodes| && SilentSince(states[k].nodes[a], states[j].nodes[a], con)
  {
    forall m | 0 <= m < |states| ensures a < |states[m].workers| { RunKeepsHistory(scopes, states, labels, m); }
    k := FirstIdle(states, labels, i, j, a, ev);
    HandlerEffect(scopes, states, labels, i, k, a, ev);
    SilenceAfterClose(scopes, states, labels, k, j, a, con);
    StoredSubscriptionsAreLive(scopes, states, labels, j, a);
    ClosedIsUnregistered(scopes, states, labels, j, a, con);
  }

  lemma ClosedIsUnregistered(scopes: seq<Scope>, states: seq<State>, labels: seq<Label>, j: nat, a: nat,
                             con: Connection)
    requires Run(scopes, states, labels) && j < |states| && a < |scopes|
    requires a < |states[j].nodes| && con in states[j].nodes[a].closed
    ensures con !in states[j].nodes[a].connections
  {
    RunKeepsHistory(scopes, states, labels, j);
    assert SessionInv(states[j].workers[a], states[j].nodes[a]);
  }
}
