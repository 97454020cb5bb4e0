/** What stored records, and deliveries through them, owe to the requests that clients sent. */
module Requests {
  import opened Mqtt
  import opened Scopes
  import opened Subscriptions
  import opened Publications
  import opened Machine
  import opened Sessions
  import opened History
  import opened Guarantees

  /** A SUBSCRIBE that a client sent, with the version of its session. */
  datatype Request = Request(con: Connection, version: Version, entries: seq<Entry>)

  function RequestOf(n: Node, ev: Event): seq<Request> {
    if ev.OnSubscribe? && ev.con in n.open then [Request(ev.con, n.open[ev.con], ev.entries)] else []
  }

  /** The requests that came to adapter `a` in the first `i` steps of a run. */
  function RequestsUpTo(states: seq<State>, labels: seq<Label>, i: nat, a: nat): seq<Request>
    requires i <= |labels| && |states| == |labels| + 1
  {
    if i == 0 then [] else
      RequestsUpTo(states, labels, i - 1, a) + StepRequest(states[i - 1], labels[i - 1], a)
  }

  function StepRequest(s: State, l: Label, a: nat): seq<Request> {
    if l.Receive? && l.a == a && a < |s.nodes| then RequestOf(s.nodes[a], l.ev) else []
  }

  /** The record has the options of an entry of one of the requests. */
  ghost predicate Asked(rs: seq<Request>, sub: Subscription) {
    exists r: Request, x :: r in rs && 0 <= x < |r.entries| && AsAsked(r.version, r.con, r.entries[x], sub)
  }

  ghost predicate AllAsked(rs: seq<Request>, subs: seq<Subscription>) {
    forall sub :: sub in subs ==> Asked(rs, sub)
  }

  /** The worker works on one of the requests. */
  ghost predicate CoreAsked(rs: seq<Request>, core: Pc) {
    match core
    case Subscribing(con, v, es, _) => Request(con, v, es) in rs
    case WantSubsInsert(con, v, es, _) => Request(con, v, es) in rs
    case Inserting(con, v, es, _) => Request(con, v, es) in rs
    case _ => true
  }

  ghost predicate LoopsAsked(rs: seq<Request>, loops: seq<Loop>) {
    forall x :: 0 <= x < |loops| ==> AllAsked(rs, loops[x].subs)
  }

  ghost predicate AskedInv(rs: seq<Request>, core: Pc, n: Node) {
    CoreAsked(rs, core) && AllAsked(rs, n.subs) && LoopsAsked(rs, n.loops)
  }

  lemma AskedGrows(rs: seq<Request>, more: seq<Request>, sub: Subscription)
    requires Asked(rs, sub)
    ensures Asked(rs + more, sub)
  {
    var r: Request, x :| r in rs && 0 <= x < |r.entries| && AsAsked(r.version, r.con, r.entries[x], sub);
    assert r in rs + more;
  }

  lemma InvGrows(rs: seq<Request>, more: seq<Request>, core: Pc, n: Node)
    requires AskedInv(rs, core, n)
    ensures AskedInv(rs + more, core, n)
  {
    forall sub | Asked(rs, sub) ensures Asked(rs + more, sub) { AskedGrows(rs, more, sub); }
    forall x | 0 <= x < |n.loops| ensures AllAsked(rs + more, n.loops[x].subs) {
      assert AllAsked(rs, n.loops[x].subs);
    }
  }

  /** What a step of any thread does to the store and the loops of an adapter. */
  ghost predicate LoopsOnly(n: Node, m: Node) {
    m.subs == n.subs && (m.loops == n.loops || exists loop: Loop :: loop.subs == n.subs && m.loops == n.loops + [loop])
  }

  lemma LoopsOnlyKeepsAsked(rs: seq<Request>, core: Pc, n: Node, m: Node)
    requires AskedInv(rs, core, n) && LoopsOnly(n, m)
    ensures AskedInv(rs, core, m)
  {
    forall x | 0 <= x < |m.loops| ensures AllAsked(rs, m.loops[x].subs) {
      if x < |n.loops| { assert m.loops[x] == n.loops[x]; }
    }
  }

  lemma InsertKeepsAsked(rs: seq<Request>, subs: seq<Subscription>, con: Connection, v: Version, es: seq<Entry>, i: nat)
    requires Sound(ByTopic, subs) && AllAsked(rs, subs) && Request(con, v, es) in rs && i < |es|
    ensures AllAsked(rs, Emplaced(ByTopic, subs, SubscriptionFor(v, con, es[i])))
  {
    var sub := SubscriptionFor(v, con, es[i]);
    SubscriptionIsAsAsked(v, con, es[i]);
    var r := Request(con, v, es);
    assert r in rs && AsAsked(r.version, r.con, r.entries[i], sub);
    if !HasKey(subs, KeyOf(sub)) { InsertKeeps(ByTopic, subs, sub); }
  }

  lemma EraseKeepsAsked(rs: seq<Request>, subs: seq<Subscription>, sel: Selector)
    requires Sound(ByTopic, subs) && AllAsked(rs, subs)
    ensures AllAsked(rs, Without(subs, sel))
  {
    WithoutKeeps(ByTopic, subs, sel);
  }

  /** The worker's steps that touch the store. */
  predicate TouchesStore(pc: Pc) { pc.Inserting? || pc.Erasing? || pc.Closing? }

  lemma OtherWorkLoopsOnly(a: nat, pc: Pc, n: Node)
    requires !TouchesStore(pc)
    ensures LoopsOnly(n, WorkerStep(a, pc, n).node)
  {
    if pc.WantSubsPublish? {
      var loop := Loop(a, pc.k, FromHandler(pc.p), n.subs);
      assert WorkerStep(a, pc, n).node.loops == n.loops + [loop];
    }
  }

  lemma WorkKeepsCore(rs: seq<Request>, a: nat, pc: Pc, n: Node)
    requires CoreAsked(rs, Core(pc))
    ensures CoreAsked(rs, Core(WorkerStep(a, pc, n).pc))
  {
    assert Core(WantLog(Idle)) == Idle;
    if pc.Publishing? { PublishingMoves(a, pc.k, pc.p, pc.i, n); }
  }

  lemma WorkKeepsAsked(rs: seq<Request>, a: nat, pc: Pc, n: Node)
    requires AskedInv(rs, Core(pc), n) && Sound(ByTopic, n.subs)
    ensures var e := WorkerStep(a, pc, n); AskedInv(rs, Core(e.pc), e.node)
  {
    WorkKeepsCore(rs, a, pc, n);
    match pc
    case Inserting(con, v, es, i) => if i < |es| { InsertKeepsAsked(rs, n.subs, con, v, es, i); }
    case Erasing(fs, i) => if i < |fs| { EraseKeepsAsked(rs, n.subs, OfTopic(fs[i])); }
    case Closing(con) => EraseKeepsAsked(rs, n.subs, OfConnection(con));
    case _ =>
      OtherWorkLoopsOnly(a, pc, n);
      LoopsOnlyKeepsAsked(rs, Core(pc), n, WorkerStep(a, pc, n).node);
  }

  lemma DriveLoopsOnly(scopes: seq<Scope>, s: State, timeout: bool, a: nat)
    requires a < |s.nodes|
    ensures |ControlStep(scopes, s, timeout).nodes| == |s.nodes|
    ensures LoopsOnly(s.nodes[a], ControlStep(scopes, s, timeout).nodes[a])
  {
    if s.control == WantSubsInject(a) && s.queue != [] {
      var loop := LoopOf(s.queue[0], s.nodes[a].subs);
      assert ControlStep(scopes, s, timeout).nodes[a].loops == s.nodes[a].loops + [loop];
    }
  }

  lemma ReceiveKeepsAsked(rs: seq<Request>, n: Node, ev: Event)
    requires AskedInv(rs, Idle, n)
    ensures AskedInv(rs + RequestOf(n, ev), Core(Received(n, ev).0), Received(n, ev).1)
  {
    InvGrows(rs, RequestOf(n, ev), Idle, n);
    assert Core(WantLog(WantLog(Idle))) == Core(WantLog(Idle)) == Idle;
    if ev.OnSubscribe? && ev.con in n.open {
      var pc := Subscribing(ev.con, n.open[ev.con], ev.entries, 0);
      assert Core(WantLog(pc)) == pc;
      assert Request(ev.con, n.open[ev.con], ev.entries) in RequestOf(n, ev);
    }
  }

  lemma NextKeepsAsked(scopes: seq<Scope>, s: State, l: Label, s': State, a: nat, rs: seq<Request>)
    requires HistoryInv(scopes, s) && Next(scopes, s, l, s') && a < |scopes|
    requires AskedInv(rs, Core(s.workers[a]), s.nodes[a])
    ensures Shaped(scopes, s')
    ensures AskedInv(rs + StepRequest(s, l, a), Core(s'.workers[a]), s'.nodes[a])
  {
    assert SessionInv(s.workers[a], s.nodes[a]);
    assert rs + [] == rs;
    match l
    case Work(c) => if a == c { WorkKeepsAsked(rs, a, s.workers[a], s.nodes[a]); }
    case Drive(timeout) =>
      DriveLoopsOnly(scopes, s, timeout, a);
      LoopsOnlyKeepsAsked(rs, Core(s.workers[a]), s.nodes[a], s'.nodes[a]);
    case Receive(c, ev) =>
      assert Core(Idle) == Idle;
      if a == c { ReceiveKeepsAsked(rs, s.nodes[a], ev); }
    case RequestStop =>
  }

  lemma RunStepKeepsAsked(scopes: seq<Scope>, states: seq<State>, labels: seq<Label>, k: nat, a: nat, rs: seq<Request>)
    requires Run(scopes, states, labels) && k < |labels| && a < |scopes| && Shaped(scopes, states[k])
    requires AskedInv(rs, Core(states[k].workers[a]), states[k].nodes[a])
    ensures Shaped(scopes, states[k + 1])
    ensures AskedInv(rs + StepRequest(states[k], labels[k], a), Core(states[k + 1].workers[a]), states[k + 1].nodes[a])
  {
    RunKeepsHistory(scopes, states, labels, k);
    NextKeepsAsked(scopes, states[k], labels[k], states[k + 1], a, rs);
  }

  lemma {:induction false} RunKeepsAsked(scopes: seq<Scope>, states: seq<State>, labels: seq<Label>, i: nat, a: nat)
    requires Run(scopes, states, labels) && i < |states| && a < |scopes|
    ensures Shaped(scopes, states[i])
    ensures AskedInv(RequestsUpTo(states, labels, i, a), Core(states[i].workers[a]), states[i].nodes[a])
    decreases i
  {
    if i == 0 {
      assert states[0].nodes[a] == EMPTY_NODE && Core(Idle) == Idle;
    } else {
      RunKeepsAsked(scopes, states, labels, i - 1, a);
      RunStepKeepsAsked(scopes, states, labels, i - 1, a, RequestsUpTo(states, labels, i - 1, a));
    }
  }

  /** In every state of every run a stored record has the filter, quality of service, Retain As
      Published and No Local of an entry of a SUBSCRIBE that its own client sent, the last two
      only under v5. */
  lemma StoredAsAsked(scopes: seq<Scope>, states: seq<State>, labels: seq<Label>, i: nat, a: nat, sub: Subscription)
    requires Run(scopes, states, labels) && i < |states| && a < |scopes|
    requires a < |states[i].nodes| && sub in states[i].nodes[a].subs
    ensures Asked(RequestsUpTo(states, labels, i, a), sub)
  {
    RunKeepsAsked(scopes, states, labels, i, a);
  }

  lemma SentAsAsked(scopes: seq<Scope>, states: seq<State>, labels: seq<Label>, i: nat, a: nat, e: Sent)
    requires Run(scopes, states, labels) && i < |states| && a < |scopes|
    requires a < |states[i].nodes| && e in states[i].nodes[a].sent
    ensures Asked(RequestsUpTo(states, labels, i, a), e.sub)
  {
    RunKeepsAsked(scopes, states, labels, i, a);
    RunKeepsHistory(scopes, states, labels, i);
    assert AdapterInv(scopes, states[i], a);
    var x := EntryHasLoop(states[i].nodes[a], ActiveLoop(states[i], a), e);
    assert AllAsked(RequestsUpTo(states, labels, i, a), states[i].nodes[a].loops[x].subs);
  }

  /** No Local as the client asked for it: a client whose every entry for a filter was sent under v5
      with No Local never receives its own publication through that filter. */
  lemma NoLocalAsAsked(scopes: seq<Scope>, states: seq<State>, labels: seq<Label>, i: nat, a: nat, e: Sent)
    requires Run(scopes, states, labels) && i < |states| && a < |scopes|
    requires a < |states[i].nodes| && e in states[i].nodes[a].sent
    requires forall r: Request, x ::
               r in RequestsUpTo(states, labels, i, a) && r.con == e.delivery.con
               && 0 <= x < |r.entries| && r.entries[x].filter == e.sub.filter
               ==> r.version == V5 && r.entries[x].nl
    ensures HasPublication(states[i], e)
    ensures e.delivery.con != PublicationOf(states[i], e).con
  {
    SentAsAsked(scopes, states, labels, i, a, e);
    EveryDeliveryIsFaithful(scopes, states, labels, i, a, e);
    NoLocal(scopes, states, labels, i, a, e);
  }
}
