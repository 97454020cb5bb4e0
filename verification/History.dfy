/** What every step keeps about the histories: each delivery log is exactly what its loops send,
    each publication gets one loop at its own adapter, and the queue is the part of the push
    history that is not dispatched yet. */
module History {
  import opened Mqtt
  import opened Scopes
  import opened Subscriptions
  import opened Publications
  import opened Machine
  import opened Locks
  import opened Sessions
  import opened Logs

  // ----- Delivery logs ------------------------------------------------------------------------------

  datatype Active = NoLoop | AtLoop(i: nat, loop: Loop)

  predicate InjectingAt(c: ControlPc, a: nat) {
    (c.Injecting? || c.WantLogInject? || c.HasLogInject?) && c.a == a
  }

  /** The loop now running over the subscriptions of adapter `a`, and its position. */
  function ActiveLoop(s: State, a: nat): Active
    requires a < |s.nodes| && a < |s.workers|
  {
    var c := Core(s.workers[a]);
    if c.Publishing? then AtLoop(c.i, Loop(a, c.k, FromHandler(c.p), s.nodes[a].subs))
    else if InjectingAt(s.control, a) && s.queue != [] then
      AtLoop(s.control.i, LoopOf(s.queue[0], s.nodes[a].subs))
    else NoLoop
  }

  /** The log is what the finished loops sent, then what the running one has sent so far. */
  ghost predicate SentMatches(n: Node, act: Active) {
    match act
    case NoLoop => n.sent == LogOf(n.loops)
    case AtLoop(i, loop) =>
      && i <= |loop.subs| && n.loops != [] && n.loops[|n.loops| - 1] == loop
      && n.sent == LogOf(n.loops[..|n.loops| - 1]) + PartOf(loop, i)
  }

  lemma LoopStarts(n: Node, loop: Loop)
    requires SentMatches(n, NoLoop)
    ensures SentMatches(n.(loops := n.loops + [loop]), AtLoop(0, loop))
  {
    assert (n.loops + [loop])[..|n.loops|] == n.loops;
    assert loop.subs[..0] == [];
    assert n.sent == n.sent + PartOf(loop, 0);
  }

  lemma LoopAdvances(n: Node, m: Node, i: nat, loop: Loop)
    requires SentMatches(n, AtLoop(i, loop)) && i < |loop.subs| && m.loops == n.loops
    requires m.sent == n.sent + SentFor(loop.origin, loop.index, loop.src, loop.subs[i])
    ensures SentMatches(m, AtLoop(i + 1, loop))
  {
    PartStep(loop, i);
  }

  lemma LoopEnds(n: Node, m: Node, i: nat, loop: Loop)
    requires SentMatches(n, AtLoop(i, loop)) && i == |loop.subs| && m.loops == n.loops && m.sent == n.sent
    ensures SentMatches(m, NoLoop)
  {}

  // ----- Queue ------------------------------------------------------------------------------------------

  /** The worker has a publication that it has not pushed yet. */
  predicate InFlight(core: Pc) {
    core.WantSubsPublish? || core.Publishing? || core.WantQueue? || core.HasQueue?
  }

  /** The control thread is done with adapter `a` for the item at the front, or busy with it. */
  predicate Begun(c: ControlPc, a: nat) {
    match c
    case Routing(b) => a < b
    case WantSubsInject(b) => a < b
    case _ => (c.Injecting? || c.WantLogInject? || c.HasLogInject?) && a <= c.a
  }

  function BegunItems(scopes: seq<Scope>, s: State, a: nat): seq<Item>
    requires a < |scopes|
  {
    if Begun(s.control, a) && s.queue != [] && AdmitsItem(scopes, a, s.queue[0]) then [s.queue[0]] else []
  }

  ghost predicate ControlInv(scopes: seq<Scope>, s: State) {
    match s.control
    case Routing(a) => s.queue != [] && a <= |scopes|
    case WantSubsInject(a) => s.queue != [] && a < |scopes| && AdmitsItem(scopes, a, s.queue[0])
    case Injecting(a, _) => s.queue != [] && a < |scopes| && AdmitsItem(scopes, a, s.queue[0])
    case WantLogInject(a, _) => s.queue != [] && a < |scopes| && AdmitsItem(scopes, a, s.queue[0])
    case HasLogInject(a, _) => s.queue != [] && a < |scopes| && AdmitsItem(scopes, a, s.queue[0])
    case _ => true
  }

  ghost predicate QueueInv(scopes: seq<Scope>, s: State) {
    && s.pushed == s.dispatched + s.queue
    && (forall x :: 0 <= x < |s.pushed| ==> s.pushed[x].origin < |scopes|)
    && ControlInv(scopes, s)
  }

  /** The publications that adapter `a` has pushed: all but the one in flight. */
  function PushedCount(core: Pc, n: Node): int { |n.published| - if InFlight(core) then 1 else 0 }

  /** What adapter `a` has pushed is its first `c` publications. */
  ghost predicate PushedMatch(pushed: seq<Item>, a: nat, published: seq<Publish>, c: int) {
    0 <= c <= |published| && ItemsFrom(pushed, a) == ItemsOf(a, published[..c])
  }

  ghost predicate OriginInv(s: State, a: nat)
    requires a < |s.nodes| && a < |s.workers|
  {
    PushedMatch(s.pushed, a, s.nodes[a].published, PushedCount(Core(s.workers[a]), s.nodes[a]))
  }

  ghost predicate RemoteInv(scopes: seq<Scope>, s: State, a: nat)
    requires a < |s.nodes| && a < |scopes|
  {
    Injections(s.nodes[a].loops) == Admitted(scopes, a, s.dispatched) + BegunItems(scopes, s, a)
  }

  // ----- Loops --------------------------------------------------------------------------------------------

  /** What the records a loop found have in common. */
  ghost predicate CleanLoop(a: nat, n: Node, loop: Loop) {
    && Sound(ByTopic, loop.subs)
    && (forall sub :: sub in loop.subs ==> sub.con in n.accepted)
    && (loop.origin == a <==> loop.src.FromHandler?)
    && (loop.src.FromHandler? && loop.src.publish.version == V3
        ==> forall sub :: sub in loop.subs && sub.nl ==> sub.con != loop.src.publish.con)
  }

  /** The publication in flight is the last one published. */
  ghost predicate FlightInv(core: Pc, n: Node) {
    InFlight(core) ==> |n.published| > 0 && core.k == |n.published| - 1 && core.p == n.published[core.k]
  }

  ghost predicate OwnInv(a: nat, core: Pc, n: Node) {
    && FlightInv(core, n)
    && |OwnLoops(n.loops, a)| == |n.published| - (if core.WantSubsPublish? then 1 else 0)
    && (forall j :: 0 <= j < |OwnLoops(n.loops, a)| ==>
          OwnLoops(n.loops, a)[j].index == j && OwnLoops(n.loops, a)[j].src == FromHandler(n.published[j]))
    && (forall x :: 0 <= x < |n.loops| ==> CleanLoop(a, n, n.loops[x]))
  }

  ghost predicate Shaped(scopes: seq<Scope>, s: State) { |s.nodes| == |s.workers| == |scopes| }

  /** The histories of one adapter. */
  ghost predicate AdapterInv(scopes: seq<Scope>, s: State, a: nat)
    requires Shaped(scopes, s) && a < |scopes|
  {
    && SentMatches(s.nodes[a], ActiveLoop(s, a))
    && OwnInv(a, Core(s.workers[a]), s.nodes[a])
    && OriginInv(s, a)
    && RemoteInv(scopes, s, a)
  }

  ghost predicate HistoryInv(scopes: seq<Scope>, s: State) {
    && Shaped(scopes, s) && LockInv(s) && SessionsInv(s) && QueueInv(scopes, s)
    && forall a :: 0 <= a < |scopes| ==> AdapterInv(scopes, s, a)
  }

  // ----- Worker steps ---------------------------------------------------------------------------------------

  lemma WorkKeepsOwn(a: nat, pc: Pc, n: Node)
    requires SessionInv(pc, n) && OwnInv(a, Core(pc), n)
    ensures OwnInv(a, Core(WorkerStep(a, pc, n).pc), WorkerStep(a, pc, n).node)
  {
    var e := WorkerStep(a, pc, n);
    if pc.WantSubsPublish? {
      PublishStarts(a, pc.k, pc.p, n);
    } else {
      WorkKeepsFlight(a, pc, n);
      FrameKeepsLoops(a, n, e.node);
    }
  }

  /** Every other worker step keeps the histories and the publication in flight. */
  lemma WorkKeepsFlight(a: nat, pc: Pc, n: Node)
    requires !pc.WantSubsPublish?
    ensures var e := WorkerStep(a, pc, n);
            && e.node.loops == n.loops && e.node.published == n.published && e.node.accepted == n.accepted
            && (Core(e.pc).WantSubsPublish? <==> Core(pc).WantSubsPublish?)
            && (InFlight(Core(e.pc)) ==> InFlight(Core(pc)) && Core(e.pc).k == Core(pc).k && Core(e.pc).p == Core(pc).p)
  {}

  lemma FrameKeepsLoops(a: nat, n: Node, m: Node)
    requires m.loops == n.loops && m.accepted == n.accepted
    requires forall x :: 0 <= x < |n.loops| ==> CleanLoop(a, n, n.loops[x])
    ensures forall x :: 0 <= x < |m.loops| ==> CleanLoop(a, m, m.loops[x])
  {
    forall x | 0 <= x < |m.loops| ensures CleanLoop(a, m, m.loops[x]) { assert CleanLoop(a, n, n.loops[x]); }
  }

  lemma PublishStarts(a: nat, k: nat, p: Publish, n: Node)
    requires SessionInv(WantSubsPublish(k, p), n) && OwnInv(a, WantSubsPublish(k, p), n)
    ensures OwnInv(a, Publishing(k, p, 0), n.(loops := n.loops + [Loop(a, k, FromHandler(p), n.subs)]))
  {
    LoopsExtend(n.loops, Loop(a, k, FromHandler(p), n.subs), a);
  }

  /** A thread that takes, or holds, an adapter's subscription mutex excludes the other kind of
      thread from its loop over that adapter. */
  lemma LoopExcludes(s: State, a: nat)
    requires LockInv(s) && a < |s.workers| && InjectingAt(s.control, a)
    ensures SubsLock(a) in s.owner && SubsLock(a) !in HeldByWorker(a, s.workers[a])
  {
    assert SubsLock(a) in HeldBy(s, Control);
    assert SubsLock(a) in HeldBy(s, Worker(a)) <==> SubsLock(a) in s.owner && s.owner[SubsLock(a)] == Worker(a);
  }

  lemma PublishingHolds(a: nat, pc: Pc)
    ensures Core(pc).Publishing? ==> SubsLock(a) in HeldByWorker(a, pc)
  {}

  /** A worker inside its publish loop holds the subscription mutex. */
  lemma NotPublishing(s: State, a: nat)
    requires LockInv(s) && a < |s.workers|
    requires SubsLock(a) !in s.owner || InjectingAt(s.control, a)
    ensures !Core(s.workers[a]).Publishing?
  {
    if InjectingAt(s.control, a) { LoopExcludes(s, a); }
    PublishingHolds(a, s.workers[a]);
    assert SubsLock(a) in HeldBy(s, Worker(a)) <==> SubsLock(a) in s.owner && s.owner[SubsLock(a)] == Worker(a);
  }

  /** When the control thread is injecting at `a`, the worker is neither taking nor inside the
      subscription mutex. */
  lemma WorkerOutside(s: State, a: nat)
    requires LockInv(s) && a < |s.nodes| && CanWork(s, a) && InjectingAt(s.control, a)
    ensures !s.workers[a].WantSubsPublish? && !Core(s.workers[a]).Publishing?
    ensures WorkerStep(a, s.workers[a], s.nodes[a]).node.subs == s.nodes[a].subs
  {
    LoopExcludes(s, a);
    NotPublishing(s, a);
  }

  lemma WorkKeepsSent(s: State, a: nat)
    requires |s.nodes| == |s.workers| && LockInv(s) && CanWork(s, a)
    requires SentMatches(s.nodes[a], ActiveLoop(s, a)) && (InjectingAt(s.control, a) ==> s.queue != [])
    ensures SentMatches(AfterWork(s, a).nodes[a], ActiveLoop(AfterWork(s, a), a))
  {
    var pc, n := s.workers[a], s.nodes[a];
    if InjectingAt(s.control, a) {
      WorkerOutside(s, a);
      WorkBesideInjection(s, a);
    } else if pc.WantSubsPublish? {
      LoopStarts(n, Loop(a, pc.k, FromHandler(pc.p), n.subs));
    } else if pc.Publishing? {
      PublishLoopStep(a, pc, n);
    } else {
      OtherWorkKeepsLoop(a, pc, n);
    }
  }

  lemma WorkBesideInjection(s: State, a: nat)
    requires |s.nodes| == |s.workers| && LockInv(s) && CanWork(s, a) && InjectingAt(s.control, a)
    requires !s.workers[a].WantSubsPublish? && !Core(s.workers[a]).Publishing?
    requires WorkerStep(a, s.workers[a], s.nodes[a]).node.subs == s.nodes[a].subs
    requires SentMatches(s.nodes[a], ActiveLoop(s, a)) && s.queue != []
    ensures SentMatches(AfterWork(s, a).nodes[a], ActiveLoop(AfterWork(s, a), a))
  {
    var s' := AfterWork(s, a);
    OtherWorkKeepsLoop(a, s.workers[a], s.nodes[a]);
    assert s'.queue[0] == s.queue[0];
    assert ActiveLoop(s', a) == ActiveLoop(s, a);
  }

  /** Outside the publish loop a worker neither sends nor starts a loop. */
  lemma OtherWorkKeepsLoop(a: nat, pc: Pc, n: Node)
    requires !pc.WantSubsPublish? && !pc.Publishing?
    ensures var e := WorkerStep(a, pc, n);
            && e.node.loops == n.loops && e.node.sent == n.sent
            && (Core(e.pc).Publishing? <==> Core(pc).Publishing?)
            && (Core(pc).Publishing? ==> Core(e.pc) == Core(pc) && e.node.subs == n.subs)
  {}

  /** One step of a publish loop sends for one record, over an unchanged store. */
  lemma PublishingMoves(a: nat, k: nat, p: Publish, i: nat, n: Node)
    ensures var e := WorkerStep(a, Publishing(k, p, i), n);
            && e.node.subs == n.subs && e.node.loops == n.loops
            && if i < |n.subs| then
                 && e.node.sent == n.sent + SentFor(a, k, FromHandler(p), n.subs[i])
                 && (e.pc == Publishing(k, p, i + 1) || e.pc == WantLog(Publishing(k, p, i + 1)))
               else e.node.sent == n.sent && e.pc == WantQueue(k, p)
  {
    assert n.sent + [] == n.sent;
  }

  lemma PublishLoopLogs(a: nat, k: nat, p: Publish, i: nat, n: Node, m: Node, pc: Pc)
    requires SentMatches(n, AtLoop(i, Loop(a, k, FromHandler(p), n.subs))) && m.loops == n.loops
    requires i < |n.subs| ==>
               && m.sent == n.sent + SentFor(a, k, FromHandler(p), n.subs[i])
               && (pc == Publishing(k, p, i + 1) || pc == WantLog(Publishing(k, p, i + 1)))
    requires i >= |n.subs| ==> m.sent == n.sent && pc == WantQueue(k, p)
    ensures SentMatches(m, if Core(pc).Publishing? then AtLoop(Core(pc).i, Loop(a, k, FromHandler(p), n.subs))
                           else NoLoop)
    ensures Core(pc).Publishing? ==> Core(pc).k == k && Core(pc).p == p
  {
    var loop := Loop(a, k, FromHandler(p), n.subs);
    if i < |n.subs| {
      LoopAdvances(n, m, i, loop);
      assert Core(WantLog(Publishing(k, p, i + 1))) == Publishing(k, p, i + 1);
    } else {
      LoopEnds(n, m, i, loop);
    }
  }

  lemma PublishLoopStep(a: nat, pc: Pc, n: Node)
    requires pc.Publishing?
    requires SentMatches(n, AtLoop(pc.i, Loop(a, pc.k, FromHandler(pc.p), n.subs)))
    ensures var e := WorkerStep(a, pc, n);
            SentMatches(e.node, if Core(e.pc).Publishing?
                                then AtLoop(Core(e.pc).i, Loop(a, pc.k, FromHandler(pc.p), n.subs)) else NoLoop)
    ensures var e := WorkerStep(a, pc, n);
            e.node.subs == n.subs
            && (Core(e.pc).Publishing? ==> Core(e.pc).k == pc.k && Core(e.pc).p == pc.p)
  {
    PublishingMoves(a, pc.k, pc.p, pc.i, n);
    PublishLoopLogs(a, pc.k, pc.p, pc.i, n, WorkerStep(a, pc, n).node, WorkerStep(a, pc, n).pc);
  }

  lemma WorkKeepsQueue(scopes: seq<Scope>, s: State, a: nat)
    requires Shaped(scopes, s) && QueueInv(scopes, s) && CanWork(s, a)
    ensures QueueInv(scopes, AfterWork(s, a))
  {
    var s' := AfterWork(s, a);
    assert s'.pushed == s'.dispatched + s'.queue;
    assert s.queue != [] ==> s'.queue[0] == s.queue[0];
  }

  /** Only a push ends the flight of a publication. */
  lemma FlightContinues(a: nat, pc: Pc, n: Node)
    requires !pc.HasQueue?
    ensures var e := WorkerStep(a, pc, n);
            InFlight(Core(e.pc)) == InFlight(Core(pc)) && e.node.published == n.published
  {}

  lemma PushKeepsOrigin(a: nat, pc: Pc, n: Node, pushed: seq<Item>)
    requires pc.HasQueue? && FlightInv(pc, n) && PushedMatch(pushed, a, n.published, |n.published| - 1)
    ensures PushedMatch(pushed + Pushes(a, pc), a, n.published, |n.published|)
  {
    assert (pushed + [Item(a, pc.k, QueuedForm(pc.p))])[..|pushed|] == pushed;
    assert n.published[..|n.published|] == n.published;
  }

  lemma FlightKeepsOrigin(s: State, a: nat)
    requires |s.nodes| == |s.workers| && CanWork(s, a) && !s.workers[a].HasQueue? && OriginInv(s, a)
    ensures OriginInv(AfterWork(s, a), a)
  {
    FlightContinues(a, s.workers[a], s.nodes[a]);
    assert s.pushed + [] == s.pushed;
  }

  lemma PushEndsFlight(s: State, a: nat)
    requires |s.nodes| == |s.workers| && CanWork(s, a) && s.workers[a].HasQueue?
    requires FlightInv(s.workers[a], s.nodes[a]) && OriginInv(s, a)
    ensures OriginInv(AfterWork(s, a), a)
  {
    var pc, n, s' := s.workers[a], s.nodes[a], AfterWork(s, a);
    assert Core(pc) == pc && Core(Idle) == Idle;
    assert PushedCount(Core(pc), n) == |n.published| - 1;
    PushKeepsOrigin(a, pc, n, s.pushed);
    assert WorkerStep(a, pc, n) == Effect(Idle, Drop(QueueLock), n);
    assert s'.nodes[a].published == n.published && PushedCount(Core(s'.workers[a]), s'.nodes[a]) == |n.published|;
    assert PushedMatch(s'.pushed, a, s'.nodes[a].published, |n.published|);
  }

  lemma OthersPush(b: nat, a: nat, pc: Pc, pushed: seq<Item>)
    requires a != b
    ensures ItemsFrom(pushed + Pushes(a, pc), b) == ItemsFrom(pushed, b)
  {
    if pc.HasQueue? {
      assert (pushed + Pushes(a, pc))[..|pushed|] == pushed;
    } else {
      assert pushed + [] == pushed;
    }
  }

  /** Only taking the subscription mutex for a publication adds a loop. */
  lemma LoopsOfWork(a: nat, pc: Pc, n: Node)
    ensures pc.WantSubsPublish? ==>
              WorkerStep(a, pc, n).node.loops == n.loops + [Loop(a, pc.k, FromHandler(pc.p), n.subs)]
    ensures !pc.WantSubsPublish? ==> WorkerStep(a, pc, n).node.loops == n.loops
  {}

  lemma HandlerLoopKeepsInjections(loops: seq<Loop>, loop: Loop, a: nat)
    requires loop.src.FromHandler?
    ensures Injections(loops + [loop]) == Injections(loops)
  {
    LoopsExtend(loops, loop, a);
  }

  lemma WorkKeepsInjections(a: nat, pc: Pc, n: Node)
    ensures Injections(WorkerStep(a, pc, n).node.loops) == Injections(n.loops)
  {
    LoopsOfWork(a, pc, n);
    if pc.WantSubsPublish? { HandlerLoopKeepsInjections(n.loops, Loop(a, pc.k, FromHandler(pc.p), n.subs), a); }
  }

  lemma WorkKeepsRemote(scopes: seq<Scope>, s: State, a: nat)
    requires Shaped(scopes, s) && QueueInv(scopes, s) && CanWork(s, a) && RemoteInv(scopes, s, a)
    ensures RemoteInv(scopes, AfterWork(s, a), a)
  {
    FrontStays(scopes, s, a, a);
    WorkKeepsInjections(a, s.workers[a], s.nodes[a]);
  }

  lemma WorkKeepsAdapter(scopes: seq<Scope>, s: State, a: nat, b: nat)
    requires Shaped(scopes, s) && LockInv(s) && SessionsInv(s) && QueueInv(scopes, s) && CanWork(s, a)
    requires b < |scopes| && AdapterInv(scopes, s, b)
    ensures AdapterInv(scopes, AfterWork(s, a), b)
  {
    FrontStays(scopes, s, a, b);
    if a == b {
      assert SessionInv(s.workers[a], s.nodes[a]);
      WorkKeepsSent(s, a);
      WorkKeepsOwn(a, s.workers[a], s.nodes[a]);
      if s.workers[a].HasQueue? {
        assert Core(s.workers[a]) == s.workers[a];
        PushEndsFlight(s, a);
      } else {
        FlightKeepsOrigin(s, a);
      }
      WorkKeepsRemote(scopes, s, a);
    } else {
      WorkElsewhere(scopes, s, a, b);
    }
  }

  /** A push does not change what is at the front of the queue while it is being routed. */
  lemma FrontStays(scopes: seq<Scope>, s: State, a: nat, b: nat)
    requires Shaped(scopes, s) && QueueInv(scopes, s) && CanWork(s, a) && b < |scopes|
    ensures s.queue != [] ==> AfterWork(s, a).queue != [] && AfterWork(s, a).queue[0] == s.queue[0]
    ensures AfterWork(s, a).control == s.control && AfterWork(s, a).dispatched == s.dispatched
    ensures BegunItems(scopes, AfterWork(s, a), b) == BegunItems(scopes, s, b)
  {}

  lemma WorkElsewhere(scopes: seq<Scope>, s: State, a: nat, b: nat)
    requires Shaped(scopes, s) && QueueInv(scopes, s) && CanWork(s, a)
    requires b < |scopes| && a != b && AdapterInv(scopes, s, b)
    ensures AdapterInv(scopes, AfterWork(s, a), b)
  {
    var s' := AfterWork(s, a);
    FrontStays(scopes, s, a, b);
    assert s'.nodes[b] == s.nodes[b] && s'.workers[b] == s.workers[b];
    assert ActiveLoop(s', b) == ActiveLoop(s, b);
    OthersPush(b, a, s.workers[a], s.pushed);
    assert OriginInv(s, b) && RemoteInv(scopes, s, b) && SentMatches(s.nodes[b], ActiveLoop(s, b));
  }

  lemma WorkKeepsHistory(scopes: seq<Scope>, s: State, a: nat)
    requires HistoryInv(scopes, s) && CanWork(s, a)
    ensures HistoryInv(scopes, AfterWork(s, a))
  {
    var s' := AfterWork(s, a);
    NextKeepsLocks(scopes, s, Work(a), s');
    NextKeepsSessions(scopes, s, Work(a), s');
    WorkKeepsQueue(scopes, s, a);
    forall b | 0 <= b < |scopes| ensures AdapterInv(scopes, s', b) {
      assert AdapterInv(scopes, s, b);
      WorkKeepsAdapter(scopes, s, a, b);
    }
  }

  // ----- Frames ---------------------------------------------------------------------------------------------

  lemma FrameKeepsOwn(a: nat, core: Pc, n: Node, m: Node)
    requires OwnInv(a, core, n)
    requires m.loops == n.loops && m.published == n.published && m.accepted == n.accepted
    ensures OwnInv(a, core, m)
  {
    FrameKeepsLoops(a, n, m);
  }

  /** An adapter's histories hold as before when only its delivery log and metadata changed. */
  lemma FrameKeepsAdapter(scopes: seq<Scope>, s: State, s': State, b: nat)
    requires Shaped(scopes, s) && Shaped(scopes, s') && b < |scopes| && AdapterInv(scopes, s, b)
    requires s'.workers[b] == s.workers[b] && s'.pushed == s.pushed && s'.dispatched == s.dispatched
    requires var n, m := s.nodes[b], s'.nodes[b];
             m.loops == n.loops && m.published == n.published && m.accepted == n.accepted
    requires BegunItems(scopes, s', b) == BegunItems(scopes, s, b)
    requires SentMatches(s'.nodes[b], ActiveLoop(s', b))
    ensures AdapterInv(scopes, s', b)
  {
    FrameKeepsOwn(b, Core(s.workers[b]), s.nodes[b], s'.nodes[b]);
    FrameKeepsQueue(scopes, s, s', b);
  }

  lemma FrameKeepsQueue(scopes: seq<Scope>, s: State, s': State, b: nat)
    requires Shaped(scopes, s) && Shaped(scopes, s') && b < |scopes| && OriginInv(s, b) && RemoteInv(scopes, s, b)
    requires s'.workers[b] == s.workers[b] && s'.pushed == s.pushed && s'.dispatched == s.dispatched
    requires s'.nodes[b].loops == s.nodes[b].loops && s'.nodes[b].published == s.nodes[b].published
    requires BegunItems(scopes, s', b) == BegunItems(scopes, s, b)
    ensures OriginInv(s', b) && RemoteInv(scopes, s', b)
  {}

  // ----- Control steps --------------------------------------------------------------------------------------

  lemma DriveKeepsQueue(scopes: seq<Scope>, s: State, timeout: bool)
    requires Shaped(scopes, s) && QueueInv(scopes, s)
    ensures QueueInv(scopes, AfterDrive(scopes, s, timeout))
  {
    var s' := AfterDrive(scopes, s, timeout);
    assert s'.pushed == s'.dispatched + s'.queue;
  }

  /** The control thread takes up the front item at adapter `b`: what changes. */
  ghost predicate InjectionOpens(s: State, s': State, b: nat)
    requires b < |s.nodes| && s.queue != []
  {
    var n := s.nodes[b];
    && |s'.nodes| == |s.nodes| && s'.workers == s.workers
    && s'.pushed == s.pushed && s'.queue == s.queue && s'.dispatched == s.dispatched
    && s'.nodes[b] == n.(loops := n.loops + [LoopOf(s.queue[0], n.subs)])
    && s'.control == Injecting(b, 0)
  }

  lemma InjectionStartEffect(scopes: seq<Scope>, s: State, timeout: bool, b: nat)
    requires b < |s.nodes| && s.control == WantSubsInject(b) && s.queue != []
    ensures InjectionOpens(s, AfterDrive(scopes, s, timeout), b)
  {}

  lemma InjectionKeepsOwn(a: nat, core: Pc, n: Node, item: Item)
    requires SubsInv(n) && n.open.Keys <= n.accepted && OwnInv(a, core, n) && item.origin != a
    ensures OwnInv(a, core, n.(loops := n.loops + [LoopOf(item, n.subs)]))
  {
    var loop := LoopOf(item, n.subs);
    LoopsExtend(n.loops, loop, a);
    assert OwnLoops(n.loops, a) + [] == OwnLoops(n.loops, a);
    var n' := n.(loops := n.loops + [loop]);
    forall x | 0 <= x < |n'.loops| ensures CleanLoop(a, n', n'.loops[x]) {
      if x < |n.loops| { assert CleanLoop(a, n, n.loops[x]); }
    }
  }

  lemma InjectionKeepsRemote(scopes: seq<Scope>, s: State, s': State, b: nat)
    requires Shaped(scopes, s) && b < |scopes| && s.control == WantSubsInject(b) && s.queue != []
    requires AdmitsItem(scopes, b, s.queue[0]) && RemoteInv(scopes, s, b) && InjectionOpens(s, s', b)
    ensures RemoteInv(scopes, s', b)
  {
    LoopsExtend(s.nodes[b].loops, LoopOf(s.queue[0], s.nodes[b].subs), b);
    assert BegunItems(scopes, s', b) == [s.queue[0]] && BegunItems(scopes, s, b) == [];
    assert Admitted(scopes, b, s.dispatched) + [] == Admitted(scopes, b, s.dispatched);
  }

  lemma InjectionStarts(scopes: seq<Scope>, s: State, s': State, b: nat)
    requires Shaped(scopes, s) && LockInv(s) && QueueInv(scopes, s) && SubsLock(b) !in s.owner
    requires b < |scopes| && SessionInv(s.workers[b], s.nodes[b]) && AdapterInv(scopes, s, b)
    requires s.control == WantSubsInject(b) && InjectionOpens(s, s', b)
    ensures AdapterInv(scopes, s', b)
  {
    var n, item := s.nodes[b], s.queue[0];
    NotPublishing(s, b);
    LoopStarts(n, LoopOf(item, n.subs));
    InjectionKeepsOwn(b, Core(s.workers[b]), n, item);
    InjectionKeepsRemote(scopes, s, s', b);
    assert OriginInv(s, b);
  }

  /** One step of the injection loop at adapter `b`: what changes. */
  ghost predicate InjectionMoves(s: State, s': State, b: nat)
    requires b < |s.nodes| && s.control.Injecting? && s.queue != []
  {
    var n, i, item := s.nodes[b], s.control.i, s.queue[0];
    && |s'.nodes| == |s.nodes| && s'.workers == s.workers
    && s'.pushed == s.pushed && s'.queue == s.queue && s'.dispatched == s.dispatched
    && if i < |n.subs|
       then InjectingAt(s'.control, b) && s'.control.i == i + 1
            && s'.nodes[b]
               == n.(meta := s'.nodes[b].meta,
                     sent := n.sent + SentFor(item.origin, item.index, FromQueue(item.message), n.subs[i]))
       else s'.control == Routing(b + 1) && s'.nodes[b] == n
  }

  lemma InjectionStepEffect(scopes: seq<Scope>, s: State, timeout: bool, b: nat)
    requires b < |s.nodes| && s.control.Injecting? && s.control.a == b && s.queue != []
    ensures InjectionMoves(s, AfterDrive(scopes, s, timeout), b)
  {
    var n, item := s.nodes[b], s.queue[0];
    assert n.sent + [] == n.sent;
  }

  /** The delivery log and the position move together. */
  lemma InjectionStepSends(s: State, s': State, b: nat)
    requires |s.nodes| == |s.workers| && LockInv(s) && b < |s.nodes| && s.queue != []
    requires s.control.Injecting? && s.control.a == b && SentMatches(s.nodes[b], ActiveLoop(s, b))
    requires InjectionMoves(s, s', b)
    ensures SentMatches(s'.nodes[b], ActiveLoop(s', b))
  {
    var n, i, loop := s.nodes[b], s.control.i, LoopOf(s.queue[0], s.nodes[b].subs);
    NotPublishing(s, b);
    assert ActiveLoop(s, b) == AtLoop(i, loop);
    if i < |n.subs| {
      LoopAdvances(n, s'.nodes[b], i, loop);
      assert ActiveLoop(s', b) == AtLoop(i + 1, loop);
    } else {
      LoopEnds(n, s'.nodes[b], i, loop);
      assert ActiveLoop(s', b) == NoLoop;
    }
  }

  lemma InjectionFrame(scopes: seq<Scope>, s: State, s': State, b: nat)
    requires Shaped(scopes, s) && b < |scopes| && s.control.Injecting? && s.control.a == b && s.queue != []
    requires InjectionMoves(s, s', b)
    ensures Shaped(scopes, s') && s'.workers == s.workers && s'.pushed == s.pushed && s'.dispatched == s.dispatched
    ensures var n, m := s.nodes[b], s'.nodes[b];
            m.loops == n.loops && m.published == n.published && m.accepted == n.accepted
    ensures BegunItems(scopes, s', b) == BegunItems(scopes, s, b)
  {}

  lemma InjectionStep(scopes: seq<Scope>, s: State, s': State, b: nat)
    requires Shaped(scopes, s) && LockInv(s) && QueueInv(scopes, s)
    requires b < |scopes| && AdapterInv(scopes, s, b) && s.control.Injecting? && s.control.a == b
    requires InjectionMoves(s, s', b)
    ensures AdapterInv(scopes, s', b)
  {
    InjectionFrame(scopes, s, s', b);
    InjectionStepSends(s, s', b);
    FrameKeepsAdapter(scopes, s, s', b);
  }

  /** The front item leaves the queue after it was offered to every adapter. */
  lemma PopKeepsAdapter(scopes: seq<Scope>, s: State, timeout: bool, b: nat)
    requires Shaped(scopes, s) && QueueInv(scopes, s)
    requires b < |scopes| && AdapterInv(scopes, s, b) && s.control == Routing(|scopes|)
    ensures AdapterInv(scopes, AfterDrive(scopes, s, timeout), b)
  {
    var s' := AfterDrive(scopes, s, timeout);
    ItemsExtend(scopes, b, s.dispatched, s.queue[0], b);
    assert BegunItems(scopes, s', b) == [];
    assert ActiveLoop(s', b) == ActiveLoop(s, b);
    assert Admitted(scopes, b, s'.dispatched) + [] == Admitted(scopes, b, s'.dispatched);
  }

  /** Every other control step leaves adapter `b` where it was. */
  lemma OtherDriveEffect(scopes: seq<Scope>, s: State, timeout: bool, b: nat)
    requires Shaped(scopes, s) && QueueInv(scopes, s) && b < |scopes|
    requires s.control != WantSubsInject(b) && !(s.control.Injecting? && s.control.a == b)
    requires s.control != Routing(|scopes|)
    ensures var s' := AfterDrive(scopes, s, timeout);
            && Shaped(scopes, s')
            && s'.nodes[b] == s.nodes[b] && s'.queue == s.queue && s'.dispatched == s.dispatched
            && InjectingAt(s'.control, b) == InjectingAt(s.control, b)
            && (InjectingAt(s.control, b) ==> s'.control.i == s.control.i)
            && BegunItems(scopes, s', b) == BegunItems(scopes, s, b)
  {}

  lemma OtherDriveKeepsAdapter(scopes: seq<Scope>, s: State, timeout: bool, b: nat)
    requires Shaped(scopes, s) && QueueInv(scopes, s)
    requires b < |scopes| && AdapterInv(scopes, s, b)
    requires s.control != WantSubsInject(b) && !(s.control.Injecting? && s.control.a == b)
    requires s.control != Routing(|scopes|)
    ensures AdapterInv(scopes, AfterDrive(scopes, s, timeout), b)
  {
    var s' := AfterDrive(scopes, s, timeout);
    OtherDriveEffect(scopes, s, timeout, b);
    assert ActiveLoop(s', b) == ActiveLoop(s, b);
    FrameKeepsAdapter(scopes, s, s', b);
  }

  lemma DriveKeepsHistory(scopes: seq<Scope>, s: State, timeout: bool)
    requires HistoryInv(scopes, s) && CanDrive(scopes, s)
    ensures HistoryInv(scopes, AfterDrive(scopes, s, timeout))
  {
    var s' := AfterDrive(scopes, s, timeout);
    NextKeepsLocks(scopes, s, Drive(timeout), s');
    NextKeepsSessions(scopes, s, Drive(timeout), s');
    DriveKeepsQueue(scopes, s, timeout);
    forall b | 0 <= b < |scopes| ensures AdapterInv(scopes, s', b) {
      assert AdapterInv(scopes, s, b);
      if s.control == WantSubsInject(b) {
        InjectionStartEffect(scopes, s, timeout, b);
        assert SessionInv(s.workers[b], s.nodes[b]);
        InjectionStarts(scopes, s, s', b);
      } else if s.control.Injecting? && s.control.a == b {
        InjectionStepEffect(scopes, s, timeout, b);
        InjectionStep(scopes, s, s', b);
      } else if s.control == Routing(|scopes|) {
        PopKeepsAdapter(scopes, s, timeout, b);
      } else {
        OtherDriveKeepsAdapter(scopes, s, timeout, b);
      }
    }
  }

  // ----- Events ------------------------------------------------------------------------------------------------

  /** The core of a handler's first state. */
  lemma FirstCore(n: Node, ev: Event)
    ensures ev.OnPublish? ==> Core(Received(n, ev).0) == WantSubsPublish(|n.published|, ev.p)
    ensures !ev.OnPublish? ==> !InFlight(Core(Received(n, ev).0))
  {
    assert Core(WantLog(WantLog(Idle))) == Core(WantLog(Idle)) == Idle;
  }

  lemma ReceiveKeepsOwn(a: nat, n: Node, ev: Event)
    requires OwnInv(a, Idle, n)
    ensures OwnInv(a, Core(Received(n, ev).0), Received(n, ev).1)
  {
    FirstCore(n, ev);
    var n' := Received(n, ev).1;
    assert n'.loops == n.loops && n.accepted <= n'.accepted && n.published <= n'.published;
    forall x | 0 <= x < |n.loops| ensures CleanLoop(a, n', n.loops[x]) { assert CleanLoop(a, n, n.loops[x]); }
  }

  /** An event changes one adapter's node and worker, and nothing else. */
  ghost predicate ReceiveMoves(s: State, s': State, a: nat, ev: Event)
    requires a < |s.nodes| && a < |s.workers|
  {
    && s'.nodes == s.nodes[a := Received(s.nodes[a], ev).1]
    && s'.workers == s.workers[a := Received(s.nodes[a], ev).0]
    && s'.control == s.control && s'.queue == s.queue && s'.pushed == s.pushed && s'.dispatched == s.dispatched
  }

  lemma ReceiveKeepsLoop(s: State, s': State, a: nat, ev: Event, b: nat)
    requires |s.nodes| == |s.workers| && a < |s.nodes| && s.workers[a] == Idle && ReceiveMoves(s, s', a, ev)
    requires b < |s.nodes|
    ensures ActiveLoop(s', b) == ActiveLoop(s, b)
    ensures s'.nodes[b].loops == s.nodes[b].loops && s'.nodes[b].sent == s.nodes[b].sent
  {
    assert Core(Idle) == Idle;
    FirstCore(s.nodes[a], ev);
  }

  lemma ReceiveKeepsAdapter(scopes: seq<Scope>, s: State, s': State, a: nat, ev: Event, b: nat)
    requires Shaped(scopes, s) && a < |scopes| && s.workers[a] == Idle && ReceiveMoves(s, s', a, ev)
    requires b < |scopes| && AdapterInv(scopes, s, b)
    ensures AdapterInv(scopes, s', b)
  {
    ReceiveKeepsLoop(s, s', a, ev, b);
    assert BegunItems(scopes, s', b) == BegunItems(scopes, s, b);
    if a == b {
      assert Core(Idle) == Idle;
      ReceiveKeepsOwn(a, s.nodes[a], ev);
      ReceiveKeepsOrigin(s.pushed, a, s.nodes[a], ev);
    }
  }

  lemma ReceiveKeepsOrigin(pushed: seq<Item>, a: nat, n: Node, ev: Event)
    requires PushedMatch(pushed, a, n.published, |n.published|)
    ensures var (pc, n') := Received(n, ev);
            PushedMatch(pushed, a, n'.published, PushedCount(Core(pc), n'))
  {
    FirstCore(n, ev);
    assert Received(n, ev).1.published[..|n.published|] == n.published[..|n.published|];
  }

  lemma ReceiveKeepsHistory(scopes: seq<Scope>, s: State, a: nat, ev: Event)
    requires HistoryInv(scopes, s) && CanReceive(s, a, ev)
    ensures HistoryInv(scopes, AfterReceive(s, a, ev))
  {
    var s' := AfterReceive(s, a, ev);
    NextKeepsLocks(scopes, s, Receive(a, ev), s');
    NextKeepsSessions(scopes, s, Receive(a, ev), s');
    assert QueueInv(scopes, s');
    forall b | 0 <= b < |scopes| ensures AdapterInv(scopes, s', b) {
      assert AdapterInv(scopes, s, b);
      ReceiveKeepsAdapter(scopes, s, s', a, ev, b);
    }
  }

  // ----- Runs ----------------------------------------------------------------------------------------------------

  lemma InitialHistory(scopes: seq<Scope>, s: State)
    requires Initial(scopes, s)
    ensures HistoryInv(scopes, s)
  {
    InitialLocks(scopes, s);
    assert Core(Idle) == Idle;
    forall a | 0 <= a < |scopes| ensures SessionInv(s.workers[a], s.nodes[a]) && AdapterInv(scopes, s, a) {
      assert s.nodes[a] == EMPTY_NODE;
    }
  }

  lemma StopKeepsHistory(scopes: seq<Scope>, s: State)
    requires HistoryInv(scopes, s)
    ensures HistoryInv(scopes, s.(stop := true))
  {
    var s' := s.(stop := true);
    NextKeepsLocks(scopes, s, RequestStop, s');
    NextKeepsSessions(scopes, s, RequestStop, s');
    assert QueueInv(scopes, s');
    forall b | 0 <= b < |scopes| ensures AdapterInv(scopes, s', b) {
      assert AdapterInv(scopes, s, b);
      assert ActiveLoop(s', b) == ActiveLoop(s, b);
      assert BegunItems(scopes, s', b) == BegunItems(scopes, s, b);
    }
  }

  lemma NextKeepsHistory(scopes: seq<Scope>, s: State, l: Label, s': State)
    requires HistoryInv(scopes, s) && Next(scopes, s, l, s')
    ensures HistoryInv(scopes, s')
  {
    match l
    case Work(a) => WorkKeepsHistory(scopes, s, a);
    case Drive(timeout) => DriveKeepsHistory(scopes, s, timeout);
    case Receive(a, ev) => ReceiveKeepsHistory(scopes, s, a, ev);
    case RequestStop => StopKeepsHistory(scopes, s);
  }

  lemma {:induction false} RunKeepsHistory(scopes: seq<Scope>, states: seq<State>, labels: seq<Label>, i: nat)
    requires Run(scopes, states, labels) && i < |states|
    ensures HistoryInv(scopes, states[i])
    decreases i
  {
    if i == 0 {
      InitialHistory(scopes, states[0]);
    } else {
      RunKeepsHistory(scopes, states, labels, i - 1);
      NextKeepsHistory(scopes, states[i - 1], labels[i - 1], states[i]);
    }
  }
}
