/** Without new events the system settles: every step but the control thread's idle polling leaves
    less to do, and as long as something is left some such step can be taken. */
module Progress {
  import opened Scopes
  import opened Machine
  import opened Locks
  import opened Sessions
  import opened History
  import opened Guarantees
  import opened Drains

  // ----- Steps left in a handler ----------------------------------------------------------------

  function Rest(n: nat, i: nat): nat { if i < n then n - i else 0 }

  /** A bound on the steps left in a handler, over a store of the given size. */
  function StepsLeft(pc: Pc, size: nat): nat {
    match pc
    case Idle => 0
    case WantLog(k) => 2 + StepsLeft(k, size)
    case HasLog(k) => 1 + StepsLeft(k, size)
    case WantSubsPublish(_, _) => 3 * size + 5
    case Publishing(_, _, i) => 3 * Rest(size, i) + 4
    case WantQueue(_, _) => 2
    case HasQueue(_, _) => 1
    case Subscribing(_, _, es, i) => 3 * Rest(|es|, i) + 3
    case WantSubsInsert(_, _, es, i) => 3 * Rest(|es|, i + 1) + 5
    case Inserting(_, _, es, i) => 3 * Rest(|es|, i + 1) + 4
    case WantSubsErase(fs) => |fs| + 4
    case Erasing(fs, i) => Rest(|fs|, i) + 3
    case Unregistering(_) => 3
    case WantSubsClose(_) => 2
    case Closing(_) => 1
  }

  /** The handlers that may change the store: how far they get does not depend on it. */
  function StoreLeft(pc: Pc): nat { if InFlight(Core(pc)) then 0 else StepsLeft(pc, 0) }

  function Flight(pc: Pc): nat { if InFlight(Core(pc)) then 1 else 0 }

  function PublishLeft(pc: Pc, n: Node): nat { if InFlight(Core(pc)) then StepsLeft(pc, |n.subs|) else 0 }

  /** A publish handler comes closer to its push, over an unchanged store. */
  lemma PublishDoesLess(a: nat, pc: Pc, n: Node)
    requires InFlight(Core(pc)) && !pc.HasQueue?
    ensures var e := WorkerStep(a, pc, n);
            && InFlight(Core(e.pc)) && e.node.subs == n.subs
            && StepsLeft(e.pc, |n.subs|) < StepsLeft(pc, |n.subs|)
  {
    match pc
    case Publishing(k, p, i) =>
      PublishingMoves(a, k, p, i, n);
      assert Core(WantLog(Publishing(k, p, i + 1))) == Publishing(k, p, i + 1);
    case _ =>
  }

  lemma StoreDoesLess(a: nat, pc: Pc, n: Node)
    requires !InFlight(Core(pc)) && pc != Idle
    ensures var e := WorkerStep(a, pc, n);
            !InFlight(Core(e.pc)) && StepsLeft(e.pc, 0) < StepsLeft(pc, 0)
  {
    assert Core(WantLog(Idle)) == Idle && StepsLeft(WantLog(Idle), 0) == 2;
  }

  lemma WorkDoesLess(a: nat, pc: Pc, n: Node)
    requires pc != Idle
    ensures var e := WorkerStep(a, pc, n);
            if !InFlight(Core(pc)) then StoreLeft(e.pc) < StoreLeft(pc) && Flight(e.pc) == Flight(pc)
            else if pc.HasQueue? then StoreLeft(e.pc) == StoreLeft(pc) && Flight(e.pc) < Flight(pc)
            else && StoreLeft(e.pc) == StoreLeft(pc) && Flight(e.pc) == Flight(pc)
                 && PublishLeft(e.pc, e.node) < PublishLeft(pc, n)
  {
    if !InFlight(Core(pc)) {
      StoreDoesLess(a, pc, n);
    } else if !pc.HasQueue? {
      PublishDoesLess(a, pc, n);
    }
  }

  // ----- What is left in the whole system ---------------------------------------------------------

  function Sum(xs: seq<nat>): nat { if xs == [] then 0 else Sum(xs[..|xs| - 1]) + xs[|xs| - 1] }

  lemma {:induction false} SumUpdate(xs: seq<nat>, a: nat, v: nat)
    requires a < |xs|
    ensures Sum(xs[a := v]) + xs[a] == Sum(xs) + v
    decreases |xs|
  {
    var n := |xs| - 1;
    if a < n {
      SumUpdate(xs[..n], a, v);
      assert xs[a := v][..n] == xs[..n][a := v];
    } else {
      assert xs[a := v][..n] == xs[..n];
    }
  }

  function StoreLoads(ws: seq<Pc>): seq<nat> { seq(|ws|, a requires 0 <= a < |ws| => StoreLeft(ws[a])) }

  function Flights(ws: seq<Pc>): seq<nat> { seq(|ws|, a requires 0 <= a < |ws| => Flight(ws[a])) }

  function PublishLoads(ws: seq<Pc>, ns: seq<Node>): seq<nat>
    requires |ws| == |ns|
  {
    seq(|ws|, a requires 0 <= a < |ws| => PublishLeft(ws[a], ns[a]))
  }

  /** What the control thread has left before it can only poll an empty queue. */
  function ControlLeft(s: State): Work3 {
    match s.control
    case LoopTop => Work3(|s.queue|, if s.queue == [] then 0 else 3 * |s.nodes| + 3, 0)
    case WantDrain => Work3(|s.queue|, if s.queue == [] then 0 else 3 * |s.nodes| + 2, 0)
    case Stopped => Work3(|s.queue|, 0, 0)
    case _ => DrainLeft(s)
  }

  /** Handlers that may change the store, publications in flight, items in the queue, steps of the
      publish handlers, and what is left of a drain: each may add to those after it only. */
  datatype Load = Load(store: nat, flights: nat, items: int, publish: nat, adapters: int, subs: int)

  function LoadOf(s: State): Load
    requires |s.nodes| == |s.workers|
  {
    var c := ControlLeft(s);
    Load(Sum(StoreLoads(s.workers)), Sum(Flights(s.workers)), c.items,
         Sum(PublishLoads(s.workers, s.nodes)), c.adapters, c.subs)
  }

  predicate NaturalLoad(l: Load) { l.items >= 0 && l.adapters >= 0 && l.subs >= 0 }

  predicate LessLoad(k: Load, l: Load) {
    || k.store < l.store
    || (k.store == l.store && k.flights < l.flights)
    || (k.store == l.store && k.flights == l.flights && k.items < l.items)
    || (k.store == l.store && k.flights == l.flights && k.items == l.items && k.publish < l.publish)
    || (k.store == l.store && k.flights == l.flights && k.items == l.items && k.publish == l.publish
        && LessWork(Work3(0, k.adapters, k.subs), Work3(0, l.adapters, l.subs)))
  }

  /** The control thread is about to look into an empty queue. */
  predicate Polling(s: State) { s.queue == [] && (s.control == LoopTop || s.control == WantDrain) }

  predicate Productive(s: State, l: Label) { l.Work? || (l.Drive? && !Polling(s)) }

  // ----- Every productive step leaves less ---------------------------------------------------------

  lemma ControlLeftNatural(scopes: seq<Scope>, s: State)
    requires HistoryInv(scopes, s)
    ensures NaturalLoad(LoadOf(s))
  {
    if Draining(s.control) {
      DrainMakesProgress(scopes, s, RequestStop, s.(stop := true));
    }
  }

  lemma WorkKeepsControlLeft(scopes: seq<Scope>, s: State, a: nat)
    requires HistoryInv(scopes, s) && CanWork(s, a) && !s.workers[a].HasQueue?
    ensures ControlLeft(AfterWork(s, a)).items == ControlLeft(s).items
  {
    assert s.queue + [] == s.queue;
  }

  lemma WorkLessens(scopes: seq<Scope>, s: State, a: nat)
    requires HistoryInv(scopes, s) && CanWork(s, a)
    ensures LessLoad(LoadOf(AfterWork(s, a)), LoadOf(s))
  {
    var pc, n := s.workers[a], s.nodes[a];
    var e, s' := WorkerStep(a, pc, n), AfterWork(s, a);
    WorkDoesLess(a, pc, n);
    assert s'.workers == s.workers[a := e.pc] && s'.nodes == s.nodes[a := e.node];
    SumsMove(s.workers, s.nodes, a, e.pc, e.node);
    if !pc.HasQueue? { WorkKeepsControlLeft(scopes, s, a); }
  }

  /** When one worker moves, each sum changes by what that worker's share changes. */
  lemma SumsMove(ws: seq<Pc>, ns: seq<Node>, a: nat, pc: Pc, n: Node)
    requires |ws| == |ns| && a < |ws|
    ensures Sum(StoreLoads(ws[a := pc])) + StoreLeft(ws[a]) == Sum(StoreLoads(ws)) + StoreLeft(pc)
    ensures Sum(Flights(ws[a := pc])) + Flight(ws[a]) == Sum(Flights(ws)) + Flight(pc)
    ensures Sum(PublishLoads(ws[a := pc], ns[a := n])) + PublishLeft(ws[a], ns[a])
            == Sum(PublishLoads(ws, ns)) + PublishLeft(pc, n)
  {
    SumUpdate(StoreLoads(ws), a, StoreLeft(pc));
    assert StoreLoads(ws[a := pc]) == StoreLoads(ws)[a := StoreLeft(pc)];
    SumUpdate(Flights(ws), a, Flight(pc));
    assert Flights(ws[a := pc]) == Flights(ws)[a := Flight(pc)];
    SumUpdate(PublishLoads(ws, ns), a, PublishLeft(pc, n));
    assert PublishLoads(ws[a := pc], ns[a := n]) == PublishLoads(ws, ns)[a := PublishLeft(pc, n)];
  }

  lemma DriveLessens(scopes: seq<Scope>, s: State, timeout: bool)
    requires HistoryInv(scopes, s) && CanDrive(scopes, s) && !Polling(s)
    ensures |AfterDrive(scopes, s, timeout).nodes| == |s.nodes|
    ensures LessLoad(LoadOf(AfterDrive(scopes, s, timeout)), LoadOf(s))
  {
    var s' := AfterDrive(scopes, s, timeout);
    forall b | 0 <= b < |s.nodes| ensures s'.nodes[b].subs == s.nodes[b].subs && |s'.nodes| == |s.nodes| {
      ControlOnlyLogs(scopes, s, timeout, b);
    }
    assert PublishLoads(s'.workers, s'.nodes) == PublishLoads(s.workers, s.nodes);
    ControlLessens(scopes, s, timeout);
  }

  /** The step that ends a drain: it takes the last item, or it has found the queue empty. */
  lemma DrainEndsLess(scopes: seq<Scope>, s: State, timeout: bool)
    requires Shaped(scopes, s) && QueueInv(scopes, s) && Draining(s.control)
    requires !Draining(AfterDrive(scopes, s, timeout).control)
    ensures LessWork(ControlLeft(AfterDrive(scopes, s, timeout)), ControlLeft(s))
  {
    DriveKeepsSize(scopes, s, timeout);
  }

  lemma OutsideDrainLess(scopes: seq<Scope>, s: State, timeout: bool)
    requires CanDrive(scopes, s) && !Polling(s) && !Draining(s.control)
    ensures LessWork(ControlLeft(AfterDrive(scopes, s, timeout)), ControlLeft(s))
  {
    DriveKeepsSize(scopes, s, timeout);
  }

  lemma ControlLessens(scopes: seq<Scope>, s: State, timeout: bool)
    requires HistoryInv(scopes, s) && CanDrive(scopes, s) && !Polling(s)
    ensures LessWork(ControlLeft(AfterDrive(scopes, s, timeout)), ControlLeft(s))
  {
    if !Draining(s.control) {
      OutsideDrainLess(scopes, s, timeout);
    } else if Draining(AfterDrive(scopes, s, timeout).control) {
      DrainMakesProgress(scopes, s, Drive(timeout), AfterDrive(scopes, s, timeout));
      SameWhileDraining(s);
      SameWhileDraining(AfterDrive(scopes, s, timeout));
    } else {
      DrainEndsLess(scopes, s, timeout);
    }
  }

  lemma SameWhileDraining(s: State)
    requires Draining(s.control)
    ensures ControlLeft(s) == DrainLeft(s)
  {}

  lemma DriveKeepsSize(scopes: seq<Scope>, s: State, timeout: bool)
    ensures |AfterDrive(scopes, s, timeout).nodes| == |s.nodes|
  {}

  /** Every productive step of every run leaves less to do, in a well-founded order. */
  lemma ProductiveStepsLessen(scopes: seq<Scope>, s: State, l: Label, s': State)
    requires HistoryInv(scopes, s) && Next(scopes, s, l, s') && Productive(s, l)
    ensures |s'.nodes| == |s'.workers| && NaturalLoad(LoadOf(s)) && LessLoad(LoadOf(s'), LoadOf(s))
  {
    ControlLeftNatural(scopes, s);
    match l
    case Work(a) => WorkLessens(scopes, s, a);
    case Drive(timeout) => DriveLessens(scopes, s, timeout);
  }

  // ----- Some productive step can be taken ----------------------------------------------------------

  /** All handlers are done, and the queue is empty or no longer served. */
  ghost predicate Quiet(s: State) {
    && (forall a :: 0 <= a < |s.workers| ==> s.workers[a] == Idle)
    && (s.queue == [] || s.control == Stopped)
  }

  function After(scopes: seq<Scope>, s: State, l: Label): State
    requires |s.nodes| == |s.workers|
  {
    match l
    case Work(a) => if a < |s.workers| then AfterWork(s, a) else s
    case Drive(timeout) => AfterDrive(scopes, s, timeout)
    case Receive(a, ev) => if a < |s.workers| then AfterReceive(s, a, ev) else s
    case RequestStop => s.(stop := true)
  }

  /** A holder of a lock that is the control thread is in the middle of a drain. */
  lemma HolderDrains(scopes: seq<Scope>, s: State, t: Thread)
    requires LockInv(s) && WaitsFor(scopes, s, t, Control)
    ensures Draining(s.control)
  {
    var l := NextOp(scopes, s, t).lock;
    assert l in HeldBy(s, Control) <==> l in s.owner && s.owner[l] == Control;
  }

  lemma IdleHoldsNothing(s: State)
    requires LockInv(s) && forall a :: 0 <= a < |s.workers| ==> s.workers[a] == Idle
    ensures forall l :: l in s.owner ==> l in HeldByControl(s.control)
  {
    forall l | l in s.owner ensures l in HeldByControl(s.control) {
      assert l in HeldBy(s, s.owner[l]);
    }
  }

  /** As long as something is left, a worker or the control thread can take a productive step. */
  lemma SomeStepIsProductive(scopes: seq<Scope>, s: State) returns (l: Label)
    requires HistoryInv(scopes, s) && !Quiet(s)
    ensures Productive(s, l) && Next(scopes, s, l, After(scopes, s, l))
  {
    if a :| 0 <= a < |s.workers| && s.workers[a] != Idle {
      var chain := ChainFrom(scopes, s, Worker(a), 0);
      var n := |chain| - 1;
      match chain[n] {
        case Worker(b) => l := Work(b);
        case Control =>
          assert WaitsFor(scopes, s, chain[n - 1], chain[n]);
          HolderDrains(scopes, s, chain[n - 1]);
          l := Drive(true);
      }
    } else {
      IdleHoldsNothing(s);
      ControlLockOrder(scopes, s);
      l := Drive(true);
    }
  }

  /** A run fragment of productive steps. */
  ghost predicate Continues(scopes: seq<Scope>, states: seq<State>, labels: seq<Label>) {
    && |states| == |labels| + 1
    && forall i :: 0 <= i < |labels| ==>
         Productive(states[i], labels[i]) && Next(scopes, states[i], labels[i], states[i + 1])
  }

  lemma Prepend(scopes: seq<Scope>, s: State, l: Label, more: seq<State>, steps: seq<Label>)
    requires Continues(scopes, more, steps) && Productive(s, l) && Next(scopes, s, l, more[0])
    ensures Continues(scopes, [s] + more, [l] + steps)
    ensures ([s] + more)[|[l] + steps|] == more[|steps|]
  {
    var states, labels := [s] + more, [l] + steps;
    forall i | 0 <= i < |labels|
      ensures Productive(states[i], labels[i]) && Next(scopes, states[i], labels[i], states[i + 1])
    {
      if i > 0 { assert Productive(more[i - 1], steps[i - 1]) && Next(scopes, more[i - 1], steps[i - 1], more[i]); }
    }
  }

  /** The control thread ends only when it was asked to. */
  ghost predicate StopInv(s: State) { s.control == Stopped ==> s.stop }

  lemma NextKeepsStop(scopes: seq<Scope>, s: State, l: Label, s': State)
    requires StopInv(s) && Next(scopes, s, l, s')
    ensures StopInv(s') && (l != RequestStop ==> s'.stop == s.stop)
  {}

  lemma {:induction false} RunKeepsStop(scopes: seq<Scope>, states: seq<State>, labels: seq<Label>, i: nat)
    requires Run(scopes, states, labels) && i < |states|
    ensures StopInv(states[i])
    decreases i
  {
    if i > 0 {
      RunKeepsStop(scopes, states, labels, i - 1);
      NextKeepsStop(scopes, states[i - 1], labels[i - 1], states[i]);
    }
  }

  lemma {:induction false} ComesToRest(scopes: seq<Scope>, s: State) returns (states: seq<State>, labels: seq<Label>)
    requires HistoryInv(scopes, s) && StopInv(s)
    ensures Continues(scopes, states, labels) && states[0] == s
    ensures Quiet(states[|labels|]) && (s.stop || Settled(states[|labels|]))
    ensures HistoryInv(scopes, states[|labels|]) && states[|labels|].stop == s.stop
    decreases LoadOf(s).store, LoadOf(s).flights, LoadOf(s).items, LoadOf(s).publish, LoadOf(s).adapters, LoadOf(s).subs
  {
    if Quiet(s) {
      states, labels := [s], [];
    } else {
      var l := SomeStepIsProductive(scopes, s);
      var s' := After(scopes, s, l);
      ProductiveStepsLessen(scopes, s, l, s');
      NextKeepsHistory(scopes, s, l, s');
      NextKeepsStop(scopes, s, l, s');
      var more, steps := ComesToRest(scopes, s');
      Prepend(scopes, s, l, more, steps);
      states, labels := [s] + more, [l] + steps;
    }
  }

  /** From every state of every run, unless it was asked to stop, the system can come to rest with
      no handler running and the queue empty, by productive steps alone and without a new event.
      Since every productive step leaves less to do, and one is there until then, no way of taking
      them goes on for ever. */
  lemma EveryRunCanSettle(scopes: seq<Scope>, states: seq<State>, labels: seq<Label>, i: nat)
      returns (more: seq<State>, steps: seq<Label>)
    requires Run(scopes, states, labels) && i < |states|
    ensures Continues(scopes, more, steps) && more[0] == states[i]
    ensures Quiet(more[|steps|]) && (states[i].stop || Settled(more[|steps|]))
  {
    RunKeepsHistory(scopes, states, labels, i);
    RunKeepsStop(scopes, states, labels, i);
    more, steps := ComesToRest(scopes, states[i]);
  }

  // ----- A stop is served ----------------------------------------------------------------------------

  /** A run fragment without events. */
  ghost predicate Fragment(scopes: seq<Scope>, states: seq<State>, labels: seq<Label>) {
    && |states| == |labels| + 1
    && forall i :: 0 <= i < |labels| ==>
         (labels[i].Work? || labels[i].Drive?) && Next(scopes, states[i], labels[i], states[i + 1])
  }

  lemma JoinFragments(scopes: seq<Scope>, states: seq<State>, labels: seq<Label>, more: seq<State>, steps: seq<Label>)
    requires Fragment(scopes, states, labels) && Fragment(scopes, more, steps) && states[|labels|] == more[0]
    ensures Fragment(scopes, states[..|labels|] + more, labels + steps)
    ensures (states[..|labels|] + more)[0] == states[0]
    ensures (states[..|labels|] + more)[|labels + steps|] == more[|steps|]
  {
    var all, ls, n := states[..|labels|] + more, labels + steps, |labels|;
    forall i | 0 <= i < |ls| ensures (ls[i].Work? || ls[i].Drive?) && Next(scopes, all[i], ls[i], all[i + 1]) {
      if i < n {
        assert ls[i] == labels[i] && all[i] == states[i] && all[i + 1] == states[i + 1];
      } else {
        assert ls[i] == steps[i - n] && all[i] == more[i - n] && all[i + 1] == more[i - n + 1];
      }
    }
  }

  function StepsToStop(c: ControlPc): nat {
    match c
    case Stopped => 0
    case LoopTop => 1
    case Checking => 2
    case _ => 3
  }

  /** At rest the control thread is in its outer loop, and the queue mutex is its own or free. */
  lemma RestIsOutside(scopes: seq<Scope>, s: State)
    requires HistoryInv(scopes, s) && Quiet(s)
    ensures s.control == Stopped
            || (s.queue == [] && (s.control == LoopTop || s.control == WantDrain || s.control == Checking)
                && CanDrive(scopes, s))
  {
    IdleHoldsNothing(s);
  }

  lemma {:induction false} StopsFromRest(scopes: seq<Scope>, s: State) returns (states: seq<State>, labels: seq<Label>)
    requires HistoryInv(scopes, s) && Quiet(s) && s.stop
    ensures Fragment(scopes, states, labels) && states[0] == s && states[|labels|].control == Stopped
    decreases StepsToStop(s.control)
  {
    if s.control == Stopped {
      states, labels := [s], [];
    } else {
      RestIsOutside(scopes, s);
      var s' := AfterDrive(scopes, s, true);
      NextKeepsHistory(scopes, s, Drive(true), s');
      var more, steps := StopsFromRest(scopes, s');
      JoinFragments(scopes, [s, s'], [Drive(true)], more, steps);
      states, labels := [s, s'][..1] + more, [Drive(true)] + steps;
    }
  }

  /** A stop that was asked for is served: from every state of every run in which the flag is set
      the control thread can end, without a new event; it has ended in no other case. */
  lemma StopIsServed(scopes: seq<Scope>, states: seq<State>, labels: seq<Label>, i: nat)
      returns (more: seq<State>, steps: seq<Label>)
    requires Run(scopes, states, labels) && i < |states|
    ensures !states[i].stop ==> states[i].control != Stopped
    ensures states[i].stop ==>
              Fragment(scopes, more, steps) && more[0] == states[i] && more[|steps|].control == Stopped
  {
    RunKeepsHistory(scopes, states, labels, i);
    RunKeepsStop(scopes, states, labels, i);
    if !states[i].stop { return [], []; }
    var first, ls := ComesToRest(scopes, states[i]);
    var last, ms := StopsFromRest(scopes, first[|ls|]);
    JoinFragments(scopes, first, ls, last, ms);
    more, steps := first[..|ls|] + last, ls + ms;
  }

  // ----- A step that can be taken is a real one -------------------------------------------------------

  ghost function StepOf(t: Thread): Label {
    match t case Worker(a) => Work(a) case Control => Drive(false)
  }

  lemma StepMoves(scopes: seq<Scope>, s: State, t: Thread)
    requires HistoryInv(scopes, s) && CanStep(scopes, s, t)
    ensures After(scopes, s, StepOf(t)) != s
  {
    var s' := After(scopes, s, StepOf(t));
    if !Polling(s) || t.Worker? {
      ProductiveStepsLessen(scopes, s, StepOf(t), s');
    } else {
      assert s'.control != s.control;
    }
  }

  /** Deadlock freedom, with the steps shown to be real: in every state of every run, from every
      unfinished thread the chain of lock holders ends within three hops in a thread whose next
      step can be taken and changes the state. */
  lemma NobodyIsStuck(scopes: seq<Scope>, states: seq<State>, labels: seq<Label>, i: nat, t: Thread)
      returns (chain: seq<Thread>)
    requires Run(scopes, states, labels) && i < |states| && Unfinished(states[i], t)
    ensures |states[i].nodes| == |states[i].workers|
    ensures EndsInStep(scopes, states[i], chain) && chain[0] == t && |chain| <= 4
    ensures After(scopes, states[i], StepOf(chain[|chain| - 1])) != states[i]
  {
    RunKeepsHistory(scopes, states, labels, i);
    chain := DeadlockFreedom(scopes, states, labels, i, t);
    StepMoves(scopes, states[i], chain[|chain| - 1]);
  }
}
