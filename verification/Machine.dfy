/** The running system: one worker thread per adapter, the control thread, and the locks they
    take, as a transition system whose steps are the program's accesses to shared state. */
module Machine {
  import opened Mqtt
  import opened Subscriptions
  import opened Topics
  import opened Scopes
  import opened Publications

  /** The queue mutex, the subscription mutex of each adapter's broker, and the log mutex. */
  datatype Lock = QueueLock | SubsLock(adapter: nat) | LogLock

  datatype Thread = Worker(adapter: nat) | Control

  /** A queued message; `origin` is the adapter that pushed it and `index` counts the
      publications of that adapter. */
  datatype Item = Item(origin: nat, index: nat, message: Message)

  /** One delivery with the subscription it went through and the publication it carries. */
  datatype Sent = Sent(origin: nat, index: nat, sub: Subscription, delivery: Delivery)

  /** One loop over an adapter's topic index, with the records it found. */
  datatype Loop = Loop(origin: nat, index: nat, src: Source, subs: seq<Subscription>)

  /** An adapter's broker. The first three fields are the program's; `accepted`, `open` and
      `closed` are the sessions the server library knows; the others are histories. */
  datatype Node = Node(
    connections: set<Connection>,
    meta: set<Connection>,
    subs: seq<Subscription>,
    accepted: set<Connection>,
    open: map<Connection, Version>,
    closed: set<Connection>,
    published: seq<Publish>,
    loops: seq<Loop>,
    sent: seq<Sent>)

  const EMPTY_NODE := Node({}, {}, [], {}, map[], {}, [], [], [])

  /** Where a worker thread stands. `Want...` is a thread about to take a lock. */
  datatype Pc =
    | Idle
    | WantLog(next: Pc)
    | HasLog(next: Pc)
    | WantSubsPublish(k: nat, p: Publish)
    | Publishing(k: nat, p: Publish, i: nat)
    | WantQueue(k: nat, p: Publish)
    | HasQueue(k: nat, p: Publish)
    | Subscribing(con: Connection, version: Version, entries: seq<Entry>, i: nat)
    | WantSubsInsert(con: Connection, version: Version, entries: seq<Entry>, i: nat)
    | Inserting(con: Connection, version: Version, entries: seq<Entry>, i: nat)
    | WantSubsErase(filters: seq<string>)
    | Erasing(filters: seq<string>, i: nat)
    | Unregistering(con: Connection)
    | WantSubsClose(con: Connection)
    | Closing(con: Connection)

  /** Where the control thread stands. */
  datatype ControlPc =
    | LoopTop
    | WantDrain
    | Checking
    | Routing(a: nat)
    | WantSubsInject(a: nat)
    | Injecting(a: nat, i: nat)
    | WantLogInject(a: nat, i: nat)
    | HasLogInject(a: nat, i: nat)
    | Stopped

  datatype State = State(
    nodes: seq<Node>,
    workers: seq<Pc>,
    control: ControlPc,
    owner: map<Lock, Thread>,
    queue: seq<Item>,
    pushed: seq<Item>,
    dispatched: seq<Item>,
    stop: bool)

  // ----- Locks --------------------------------------------------------------------------------

  datatype LockOp = NoOp | Take(lock: Lock) | Drop(lock: Lock)

  function HeldByWorker(a: nat, pc: Pc): set<Lock> {
    match pc
    case WantLog(k) => HeldByWorker(a, k)
    case HasLog(k) => HeldByWorker(a, k) + {LogLock}
    case Publishing(_, _, _) => {SubsLock(a)}
    case HasQueue(_, _) => {QueueLock}
    case Inserting(_, _, _, _) => {SubsLock(a)}
    case Erasing(_, _) => {SubsLock(a)}
    case Closing(_) => {SubsLock(a)}
    case _ => {}
  }

  function HeldByControl(pc: ControlPc): set<Lock> {
    match pc
    case Checking => {QueueLock}
    case Routing(_) => {QueueLock}
    case WantSubsInject(_) => {QueueLock}
    case Injecting(a, _) => {QueueLock, SubsLock(a)}
    case WantLogInject(a, _) => {QueueLock, SubsLock(a)}
    case HasLogInject(a, _) => {QueueLock, SubsLock(a), LogLock}
    case _ => {}
  }

  predicate Free(owner: map<Lock, Thread>, op: LockOp) { op.Take? ==> op.lock !in owner }

  function AfterOp(owner: map<Lock, Thread>, op: LockOp, t: Thread): map<Lock, Thread> {
    match op
    case NoOp => owner
    case Take(l) => owner[l := t]
    case Drop(l) => owner - {l}
  }

  // ----- The worker threads ----------------------------------------------------------------------

  /** What a loop sends for one subscription, with its provenance. */
  function SentFor(origin: nat, index: nat, src: Source, sub: Subscription): seq<Sent> {
    var copies := Copies(src, sub);
    if copies == [] then [] else [Sent(origin, index, sub, copies[0])]
  }

  /** The loop body for one subscription: send, and look the recipient up for the log. */
  function SendOne(n: Node, origin: nat, index: nat, src: Source, sub: Subscription): Node {
    var out := SentFor(origin, index, src, sub);
    n.(sent := n.sent + out, meta := if out == [] then n.meta else n.meta + {sub.con})
  }

  datatype Effect = Effect(pc: Pc, op: LockOp, node: Node)

  function WorkerStep(a: nat, pc: Pc, n: Node): Effect {
    match pc
    case Idle => Effect(Idle, NoOp, n)
    case WantLog(k) => Effect(HasLog(k), Take(LogLock), n)
    case HasLog(k) => Effect(k, Drop(LogLock), n)
    case WantSubsPublish(k, p) =>
      Effect(Publishing(k, p, 0), Take(SubsLock(a)), n.(loops := n.loops + [Loop(a, k, FromHandler(p), n.subs)]))
    case Publishing(k, p, i) =>
      if i >= |n.subs| then Effect(WantQueue(k, p), Drop(SubsLock(a)), n)
      else if SentFor(a, k, FromHandler(p), n.subs[i]) == [] then Effect(Publishing(k, p, i + 1), NoOp, n)
      else Effect(WantLog(Publishing(k, p, i + 1)), NoOp, SendOne(n, a, k, FromHandler(p), n.subs[i]))
    case WantQueue(k, p) => Effect(HasQueue(k, p), Take(QueueLock), n)
    case HasQueue(k, p) => Effect(Idle, Drop(QueueLock), n)
    case Subscribing(con, v, es, i) =>
      if i >= |es| then Effect(WantLog(Idle), NoOp, n)
      else if AcceptedFilter(es[i].filter) then Effect(WantSubsInsert(con, v, es, i), NoOp, n)
      else Effect(Subscribing(con, v, es, i + 1), NoOp, n)
    case WantSubsInsert(con, v, es, i) => Effect(Inserting(con, v, es, i), Take(SubsLock(a)), n)
    case Inserting(con, v, es, i) =>
      var subs := if i < |es| then Emplaced(ByTopic, n.subs, SubscriptionFor(v, con, es[i])) else n.subs;
      Effect(Subscribing(con, v, es, i + 1), Drop(SubsLock(a)), n.(subs := subs))
    case WantSubsErase(fs) => Effect(Erasing(fs, 0), Take(SubsLock(a)), n)
    case Erasing(fs, i) =>
      if i < |fs| then Effect(Erasing(fs, i + 1), NoOp, n.(subs := Without(n.subs, OfTopic(fs[i]))))
      else Effect(WantLog(Idle), Drop(SubsLock(a)), n)
    case Unregistering(con) =>
      Effect(WantSubsClose(con), NoOp, n.(connections := n.connections - {con}, meta := n.meta - {con}))
    case WantSubsClose(con) => Effect(Closing(con), Take(SubsLock(a)), n)
    case Closing(con) =>
      Effect(Idle, Drop(SubsLock(a)),
             n.(connections := n.connections - {con}, subs := Without(n.subs, OfConnection(con)),
                open := n.open - {con}, closed := n.closed + {con}))
  }

  ghost predicate CanWork(s: State, a: nat) {
    && a < |s.nodes| && a < |s.workers| && s.workers[a] != Idle
    && Free(s.owner, WorkerStep(a, s.workers[a], s.nodes[a]).op)
  }

  /** The items a worker adds to the queue by its next step: one when it holds the queue mutex. */
  function Pushes(a: nat, pc: Pc): seq<Item> {
    if pc.HasQueue? then [Item(a, pc.k, QueuedForm(pc.p))] else []
  }

  function AfterWork(s: State, a: nat): State
    requires a < |s.nodes| && a < |s.workers|
  {
    var e := WorkerStep(a, s.workers[a], s.nodes[a]);
    s.(nodes := s.nodes[a := e.node], workers := s.workers[a := e.pc],
       owner := AfterOp(s.owner, e.op, Worker(a)),
       queue := s.queue + Pushes(a, s.workers[a]), pushed := s.pushed + Pushes(a, s.workers[a]))
  }

  // ----- The control thread -------------------------------------------------------------------------

  /** The test of the drain's inner loop; settings are shared by no two adapters. */
  predicate AdmitsItem(scopes: seq<Scope>, a: nat, item: Item)
    requires a < |scopes|
  {
    a != item.origin && Includes(scopes[a], item.message.topic)
  }

  function LoopOf(item: Item, subs: seq<Subscription>): Loop {
    Loop(item.origin, item.index, FromQueue(item.message), subs)
  }

  datatype ControlEffect = ControlEffect(pc: ControlPc, op: LockOp, nodes: seq<Node>, queue: seq<Item>,
                                         dispatched: seq<Item>)

  function ControlStep(scopes: seq<Scope>, s: State, timeout: bool): ControlEffect {
    var same := ControlEffect(s.control, NoOp, s.nodes, s.queue, s.dispatched);
    match s.control
    case LoopTop => same.(pc := if s.stop then Stopped else WantDrain)
    case WantDrain => same.(pc := Checking, op := Take(QueueLock))
    case Checking =>
      if s.queue == [] then same.(pc := if timeout then LoopTop else WantDrain, op := Drop(QueueLock))
      else same.(pc := Routing(0))
    case Routing(a) =>
      if s.queue == [] then same
      else if a < |scopes| then
        same.(pc := if AdmitsItem(scopes, a, s.queue[0]) then WantSubsInject(a) else Routing(a + 1))
      else same.(pc := if |s.queue| == 1 then LoopTop else Routing(0),
                 op := if |s.queue| == 1 then Drop(QueueLock) else NoOp,
                 queue := s.queue[1..], dispatched := s.dispatched + [s.queue[0]])
    case WantSubsInject(a) =>
      if s.queue == [] || a >= |s.nodes| then same else
      var n := s.nodes[a];
      same.(pc := Injecting(a, 0), op := Take(SubsLock(a)),
            nodes := s.nodes[a := n.(loops := n.loops + [LoopOf(s.queue[0], n.subs)])])
    case Injecting(a, i) =>
      if s.queue == [] || a >= |s.nodes| then same else
      var n, item := s.nodes[a], s.queue[0];
      if i >= |n.subs| then same.(pc := Routing(a + 1), op := Drop(SubsLock(a)))
      else if SentFor(item.origin, item.index, FromQueue(item.message), n.subs[i]) == [] then
        same.(pc := Injecting(a, i + 1))
      else same.(pc := WantLogInject(a, i + 1),
                 nodes := s.nodes[a := SendOne(n, item.origin, item.index, FromQueue(item.message), n.subs[i])])
    case WantLogInject(a, i) => same.(pc := HasLogInject(a, i), op := Take(LogLock))
    case HasLogInject(a, i) => same.(pc := Injecting(a, i), op := Drop(LogLock))
    case Stopped => same
  }

  ghost predicate CanDrive(scopes: seq<Scope>, s: State) {
    s.control != Stopped && Free(s.owner, ControlStep(scopes, s, false).op)
  }

  function AfterDrive(scopes: seq<Scope>, s: State, timeout: bool): State {
    var e := ControlStep(scopes, s, timeout);
    s.(nodes := e.nodes, control := e.pc, owner := AfterOp(s.owner, e.op, Control),
       queue := e.queue, dispatched := e.dispatched)
  }

  // ----- What the server library delivers to a handler --------------------------------------------

  datatype Event =
    | OnAccept(con: Connection)
    | OnConnect(con: Connection, version: Version)
    | OnPublish(p: Publish)
    | OnSubscribe(con: Connection, entries: seq<Entry>)
    | OnUnsubscribe(con: Connection, filters: seq<string>)
    | OnDisconnect(con: Connection)
    | OnClose(con: Connection)
    | OnError(con: Connection)

  /** The library's promises: an endpoint is accepted once and by one server, CONNECT comes first
      and fixes the version, and no packet follows the end of the session. Close and error
      reports may come at any time after the accept. */
  ghost predicate Allowed(s: State, a: nat, ev: Event)
    requires a < |s.nodes|
  {
    var n := s.nodes[a];
    match ev
    case OnAccept(con) => forall b :: 0 <= b < |s.nodes| ==> con !in s.nodes[b].accepted
    case OnConnect(con, v) => con in n.accepted && con !in n.open && con !in n.closed
    case OnPublish(p) => p.con in n.open && n.open[p.con] == p.version
    case OnSubscribe(con, _) => con in n.open
    case OnUnsubscribe(con, _) => con in n.open
    case OnDisconnect(con) => con in n.open
    case OnClose(con) => con in n.accepted
    case OnError(con) => con in n.accepted
  }

  function Received(n: Node, ev: Event): (Pc, Node) {
    match ev
    case OnAccept(con) => (Idle, n.(accepted := n.accepted + {con}, meta := n.meta + {con}))
    case OnConnect(con, v) =>
      (WantLog(WantLog(Idle)),
       n.(connections := n.connections + {con}, meta := n.meta + {con}, open := n.open[con := v]))
    case OnPublish(p) =>
      (WantLog(WantSubsPublish(|n.published|, p)), n.(published := n.published + [p], meta := n.meta + {p.con}))
    case OnSubscribe(con, es) =>
      (if con in n.open then WantLog(Subscribing(con, n.open[con], es, 0)) else Idle, n.(meta := n.meta + {con}))
    case OnUnsubscribe(con, fs) => (WantLog(WantSubsErase(fs)), n.(meta := n.meta + {con}))
    case OnDisconnect(con) => (WantLog(Unregistering(con)), n.(meta := n.meta + {con}))
    case OnClose(con) => (WantLog(Unregistering(con)), n)
    case OnError(con) =>
      if con in n.connections then (WantLog(Unregistering(con)), n.(meta := n.meta + {con})) else (Idle, n)
  }

  ghost predicate CanReceive(s: State, a: nat, ev: Event) {
    a < |s.nodes| && a < |s.workers| && s.workers[a] == Idle && Allowed(s, a, ev)
  }

  function AfterReceive(s: State, a: nat, ev: Event): State
    requires a < |s.nodes| && a < |s.workers|
  {
    var (pc, n) := Received(s.nodes[a], ev);
    s.(nodes := s.nodes[a := n], workers := s.workers[a := pc])
  }

  // ----- Runs --------------------------------------------------------------------------------------

  datatype Label = Work(a: nat) | Drive(timeout: bool) | Receive(a: nat, ev: Event) | RequestStop

  ghost predicate Next(scopes: seq<Scope>, s: State, l: Label, t: State) {
    match l
    case Work(a) => CanWork(s, a) && t == AfterWork(s, a)
    case Drive(timeout) => CanDrive(scopes, s) && t == AfterDrive(scopes, s, timeout)
    case Receive(a, ev) => CanReceive(s, a, ev) && t == AfterReceive(s, a, ev)
    case RequestStop => t == s.(stop := true)
  }

  ghost predicate Initial(scopes: seq<Scope>, s: State) {
    && |s.nodes| == |scopes| && |s.workers| == |scopes|
    && (forall a :: 0 <= a < |s.nodes| ==> s.nodes[a] == EMPTY_NODE && s.workers[a] == Idle)
    && s.control == LoopTop && s.owner == map[] && !s.stop
    && s.queue == s.pushed == s.dispatched == []
  }

  /** A run: every state follows from the one before it by the step its label names. */
  ghost predicate Run(scopes: seq<Scope>, states: seq<State>, labels: seq<Label>) {
    && |states| == |labels| + 1
    && Initial(scopes, states[0])
    && forall i :: 0 <= i < |labels| ==> Next(scopes, states[i], labels[i], states[i + 1])
  }
}
