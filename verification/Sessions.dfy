/** Connection lifecycle under the two-phase close: what every step keeps about connections,
    metadata and stored subscriptions. */
module Sessions {
  import opened Mqtt
  import opened Scopes
  import opened Subscriptions
  import opened Machine

  /** What a worker does once it is done with the log. */
  function Core(pc: Pc): Pc {
    match pc
    case WantLog(k) => Core(k)
    case HasLog(k) => Core(k)
    case _ => pc
  }

  /** The worker is between the two phases of closing `con`. */
  predicate Leaving(core: Pc, con: Connection) {
    (core.WantSubsClose? || core.Closing?) && core.con == con
  }

  /** The handler's own connection is still a session of the version it was called for. */
  ghost predicate HandlerInv(core: Pc, n: Node) {
    match core
    case WantSubsPublish(_, p) => p.con in n.open && n.open[p.con] == p.version
    case Publishing(_, p, _) => p.con in n.open && n.open[p.con] == p.version
    case Subscribing(con, v, _, _) => con in n.open && n.open[con] == v
    case WantSubsInsert(con, v, _, _) => con in n.open && n.open[con] == v
    case Inserting(con, v, _, _) => con in n.open && n.open[con] == v
    case Unregistering(con) => con in n.accepted
    case WantSubsClose(con) => con in n.accepted
    case Closing(con) => con in n.accepted
    case _ => true
  }

  /** Every stored subscription belongs to a session; No Local only to a v5 one. */
  ghost predicate SubsInv(n: Node) {
    && Sound(ByTopic, n.subs)
    && forall sub :: sub in n.subs ==> sub.con in n.open && (sub.nl ==> n.open[sub.con] == V5)
  }

  ghost predicate RegistryInv(core: Pc, n: Node) {
    && n.open.Keys <= n.accepted && n.closed <= n.accepted && n.open.Keys !! n.closed
    && n.connections <= n.meta && n.connections <= n.open.Keys
    && (forall con :: con in n.open ==> con in n.connections || Leaving(core, con))
    && (forall j :: 0 <= j < |n.published| ==> n.published[j].con in n.accepted)
  }

  ghost predicate SessionInv(pc: Pc, n: Node) {
    HandlerInv(Core(pc), n) && SubsInv(n) && RegistryInv(Core(pc), n)
  }

  ghost predicate SessionsInv(s: State) {
    && |s.nodes| == |s.workers|
    && (forall a :: 0 <= a < |s.nodes| ==> SessionInv(s.workers[a], s.nodes[a]))
    && (forall a, b :: 0 <= a < b < |s.nodes| ==> s.nodes[a].accepted !! s.nodes[b].accepted)
  }

  // ----- Subscription records -----------------------------------------------------------------

  lemma EmplaceKeepsSubs(n: Node, sub: Subscription)
    requires SubsInv(n) && sub.con in n.open && (sub.nl ==> n.open[sub.con] == V5)
    ensures SubsInv(n.(subs := Emplaced(ByTopic, n.subs, sub)))
  {
    if !HasKey(n.subs, KeyOf(sub)) { InsertKeeps(ByTopic, n.subs, sub); }
  }

  lemma EraseKeepsSubs(n: Node, sel: Selector)
    requires SubsInv(n)
    ensures SubsInv(n.(subs := Without(n.subs, sel)))
    ensures forall sub :: sub in Without(n.subs, sel) ==> sub in n.subs && !Selects(sel, sub)
  {
    WithoutKeeps(ByTopic, n.subs, sel);
  }

  // ----- Steps ----------------------------------------------------------------------------------

  /** Fields a delivery loop may change: the histories, and metadata only by growing. */
  ghost predicate OnlyLogged(n: Node, m: Node) {
    && n.meta <= m.meta
    && m == n.(meta := m.meta, loops := m.loops, sent := m.sent)
  }

  lemma LoggingKeepsSession(pc: Pc, n: Node, m: Node)
    requires SessionInv(pc, n) && OnlyLogged(n, m)
    ensures SessionInv(pc, m)
  {}

  lemma WorkKeepsSubs(a: nat, pc: Pc, n: Node)
    requires HandlerInv(Core(pc), n) && SubsInv(n)
    ensures SubsInv(WorkerStep(a, pc, n).node)
  {
    match pc
    case Inserting(con, v, es, i) =>
      if i < |es| { EmplaceKeepsSubs(n, SubscriptionFor(v, con, es[i])); }
    case Erasing(fs, i) =>
      if i < |fs| { EraseKeepsSubs(n, OfTopic(fs[i])); }
    case Closing(con) =>
      EraseKeepsSubs(n, OfConnection(con));
    case _ =>
  }

  lemma WorkKeepsRegistry(a: nat, pc: Pc, n: Node)
    requires HandlerInv(Core(pc), n) && RegistryInv(Core(pc), n)
    ensures RegistryInv(Core(WorkerStep(a, pc, n).pc), WorkerStep(a, pc, n).node)
    ensures WorkerStep(a, pc, n).node.accepted == n.accepted
  {}

  lemma WorkKeepsHandler(a: nat, pc: Pc, n: Node)
    requires HandlerInv(Core(pc), n)
    ensures HandlerInv(Core(WorkerStep(a, pc, n).pc), WorkerStep(a, pc, n).node)
  {}

  lemma ReceiveKeepsSession(s: State, a: nat, ev: Event)
    requires a < |s.nodes| && Allowed(s, a, ev) && SessionInv(Idle, s.nodes[a])
    ensures SessionInv(Received(s.nodes[a], ev).0, Received(s.nodes[a], ev).1)
    ensures s.nodes[a].accepted <= Received(s.nodes[a], ev).1.accepted
    ensures forall con :: con in Received(s.nodes[a], ev).1.accepted && con !in s.nodes[a].accepted ==>
              ev == OnAccept(con)
  {
    var n := s.nodes[a];
    assert Core(Idle) == Idle;
    match ev
    case OnConnect(con, v) => assert Core(WantLog(WantLog(Idle))) == Core(WantLog(Idle)) == Idle;
    case _ =>
  }

  /** The control thread writes nothing but histories and metadata, and at one adapter only. */
  lemma ControlOnlyLogs(scopes: seq<Scope>, s: State, timeout: bool, b: nat)
    requires b < |s.nodes|
    ensures |ControlStep(scopes, s, timeout).nodes| == |s.nodes|
    ensures OnlyLogged(s.nodes[b], ControlStep(scopes, s, timeout).nodes[b])
  {}

  lemma NextKeepsSessions(scopes: seq<Scope>, s: State, l: Label, s': State)
    requires SessionsInv(s) && Next(scopes, s, l, s')
    ensures SessionsInv(s')
  {
    match l
    case Work(a) =>
      var pc, n := s.workers[a], s.nodes[a];
      WorkKeepsSubs(a, pc, n);
      WorkKeepsRegistry(a, pc, n);
      WorkKeepsHandler(a, pc, n);
    case Drive(timeout) =>
      forall b | 0 <= b < |s.nodes|
        ensures SessionInv(s'.workers[b], s'.nodes[b]) && s'.nodes[b].accepted == s.nodes[b].accepted
      {
        ControlOnlyLogs(scopes, s, timeout, b);
        LoggingKeepsSession(s.workers[b], s.nodes[b], s'.nodes[b]);
      }
    case Receive(a, ev) =>
      ReceiveKeepsSession(s, a, ev);
    case RequestStop =>
  }
}
