/** Mutual exclusion and deadlock freedom of the running system. */
module Locks {
  import opened Scopes
  import opened Machine

  ghost function HeldBy(s: State, t: Thread): set<Lock> {
    match t
    case Worker(a) => if a < |s.workers| then HeldByWorker(a, s.workers[a]) else {}
    case Control => HeldByControl(s.control)
  }

  /** A continuation that does not hold the log mutex. */
  predicate Plain(pc: Pc) {
    match pc
    case WantLog(k) => Plain(k)
    case HasLog(_) => false
    case _ => true
  }

  predicate Nested(pc: Pc) {
    match pc
    case WantLog(k) => Plain(k)
    case HasLog(k) => Plain(k)
    case _ => true
  }

  /** The owner table says exactly which thread is inside which critical section. */
  ghost predicate LocksMatch(s: State) {
    forall t: Thread, l: Lock :: l in HeldBy(s, t) <==> l in s.owner && s.owner[l] == t
  }

  ghost predicate LockInv(s: State) {
    && |s.nodes| == |s.workers|
    && (forall a :: 0 <= a < |s.workers| ==> Nested(s.workers[a]))
    && LocksMatch(s)
  }

  function AfterHeld(held: set<Lock>, op: LockOp): set<Lock> {
    match op
    case NoOp => held
    case Take(l) => held + {l}
    case Drop(l) => held - {l}
  }

  lemma OpKeepsLocks(s: State, s': State, t: Thread, op: LockOp)
    requires LocksMatch(s) && Free(s.owner, op)
    requires op.Drop? ==> op.lock in HeldBy(s, t)
    requires s'.owner == AfterOp(s.owner, op, t)
    requires HeldBy(s', t) == AfterHeld(HeldBy(s, t), op)
    requires forall u: Thread :: u != t ==> HeldBy(s', u) == HeldBy(s, u)
    ensures LocksMatch(s')
  {
    forall u: Thread, l: Lock ensures l in HeldBy(s', u) <==> l in s'.owner && s'.owner[l] == u {
      assert l in HeldBy(s, u) <==> l in s.owner && s.owner[l] == u;
      assert op.Drop? ==> (op.lock in HeldBy(s, t) <==> op.lock in s.owner && s.owner[op.lock] == t);
      if u != t { assert HeldBy(s', u) == HeldBy(s, u); }
    }
  }

  lemma PlainHoldsNoLog(a: nat, pc: Pc)
    requires Plain(pc)
    ensures LogLock !in HeldByWorker(a, pc) && Nested(pc)
  {}

  lemma WorkerTakesAndDrops(a: nat, pc: Pc, n: Node)
    requires Nested(pc)
    ensures var e := WorkerStep(a, pc, n);
            && Nested(e.pc)
            && HeldByWorker(a, e.pc) == AfterHeld(HeldByWorker(a, pc), e.op)
            && (e.op.Drop? ==> e.op.lock in HeldByWorker(a, pc))
  {
    if pc.WantLog? || pc.HasLog? { PlainHoldsNoLog(a, pc.next); }
  }

  lemma ControlTakesAndDrops(scopes: seq<Scope>, s: State, timeout: bool)
    ensures var e := ControlStep(scopes, s, timeout);
            && HeldByControl(e.pc) == AfterHeld(HeldByControl(s.control), e.op)
            && (e.op.Drop? ==> e.op.lock in HeldByControl(s.control))
  {}

  /** A handler starts without any lock. */
  lemma HandlerStartsFree(a: nat, n: Node, ev: Event)
    ensures Nested(Received(n, ev).0) && HeldByWorker(a, Received(n, ev).0) == {}
  {
    assert HeldByWorker(a, WantLog(Idle)) == {};
  }

  lemma NextKeepsLocks(scopes: seq<Scope>, s: State, l: Label, s': State)
    requires LockInv(s) && Next(scopes, s, l, s')
    ensures LockInv(s')
  {
    match l
    case Work(a) =>
      WorkerTakesAndDrops(a, s.workers[a], s.nodes[a]);
      OpKeepsLocks(s, s', Worker(a), WorkerStep(a, s.workers[a], s.nodes[a]).op);
    case Drive(timeout) =>
      ControlTakesAndDrops(scopes, s, timeout);
      OpKeepsLocks(s, s', Control, ControlStep(scopes, s, timeout).op);
    case Receive(a, ev) =>
      HandlerStartsFree(a, s.nodes[a], ev);
      OpKeepsLocks(s, s', Worker(a), NoOp);
    case RequestStop =>
      OpKeepsLocks(s, s', Control, NoOp);
  }

  lemma InitialLocks(scopes: seq<Scope>, s: State)
    requires Initial(scopes, s)
    ensures LockInv(s)
  {}

  lemma {:induction false} RunKeepsLocks(scopes: seq<Scope>, states: seq<State>, labels: seq<Label>, i: nat)
    requires Run(scopes, states, labels) && i < |states|
    ensures LockInv(states[i])
    decreases i
  {
    if i == 0 {
      InitialLocks(scopes, states[0]);
    } else {
      RunKeepsLocks(scopes, states, labels, i - 1);
      NextKeepsLocks(scopes, states[i - 1], labels[i - 1], states[i]);
    }
  }

  /** In every reachable state no lock is held by two threads. */
  lemma MutualExclusion(scopes: seq<Scope>, states: seq<State>, labels: seq<Label>, i: nat, t: Thread, u: Thread)
    requires Run(scopes, states, labels) && i < |states| && t != u
    ensures HeldBy(states[i], t) !! HeldBy(states[i], u)
  {
    RunKeepsLocks(scopes, states, labels, i);
    var s := states[i];
    forall l: Lock ensures !(l in HeldBy(s, t) && l in HeldBy(s, u)) {
      assert l in HeldBy(s, t) <==> l in s.owner && s.owner[l] == t;
      assert l in HeldBy(s, u) <==> l in s.owner && s.owner[l] == u;
    }
  }

  // ----- Lock order ------------------------------------------------------------------------------

  /** Locks are taken in this order only: the queue, one broker's subscriptions, the log. */
  function Rank(l: Lock): nat {
    match l
    case QueueLock => 0
    case SubsLock(_) => 1
    case LogLock => 2
  }

  lemma WorkerLockOrder(a: nat, pc: Pc, n: Node)
    requires Nested(pc)
    ensures var op := WorkerStep(a, pc, n).op;
            op.Take? ==> forall h :: h in HeldByWorker(a, pc) ==> Rank(h) < Rank(op.lock)
  {
    if pc.WantLog? { PlainHoldsNoLog(a, pc.next); }
  }

  lemma ControlLockOrder(scopes: seq<Scope>, s: State)
    ensures var op := ControlStep(scopes, s, false).op;
            op.Take? ==> forall h :: h in HeldByControl(s.control) ==> Rank(h) < Rank(op.lock)
  {}

  // ----- Deadlock freedom ------------------------------------------------------------------------

  /** A worker inside a handler, or the control thread before it stops. */
  ghost predicate Unfinished(s: State, t: Thread) {
    match t
    case Worker(a) => a < |s.workers| && s.workers[a] != Idle
    case Control => s.control != Stopped
  }

  ghost function NextOp(scopes: seq<Scope>, s: State, t: Thread): LockOp
    requires |s.nodes| == |s.workers|
  {
    match t
    case Worker(a) => if a < |s.workers| then WorkerStep(a, s.workers[a], s.nodes[a]).op else NoOp
    case Control => ControlStep(scopes, s, false).op
  }

  ghost predicate CanStep(scopes: seq<Scope>, s: State, t: Thread) {
    match t
    case Worker(a) => CanWork(s, a)
    case Control => CanDrive(scopes, s)
  }

  ghost predicate WaitsFor(scopes: seq<Scope>, s: State, t: Thread, u: Thread)
    requires |s.nodes| == |s.workers|
  {
    var op := NextOp(scopes, s, t);
    op.Take? && op.lock in s.owner && s.owner[op.lock] == u
  }

  /** A chain of waiting threads that ends in one that can step. */
  ghost predicate EndsInStep(scopes: seq<Scope>, s: State, chain: seq<Thread>)
    requires |s.nodes| == |s.workers|
  {
    && |chain| > 0
    && (forall i :: 0 <= i < |chain| - 1 ==> WaitsFor(scopes, s, chain[i], chain[i + 1]))
    && CanStep(scopes, s, chain[|chain| - 1])
  }

  /** A thread waits only for a thread that is inside a handler and wants, if anything, a lock of
      higher rank. */
  lemma HolderIsAhead(scopes: seq<Scope>, s: State, t: Thread, u: Thread)
    requires LockInv(s) && WaitsFor(scopes, s, t, u)
    ensures Unfinished(s, u)
    ensures NextOp(scopes, s, u).Take? ==> Rank(NextOp(scopes, s, t).lock) < Rank(NextOp(scopes, s, u).lock)
  {
    var l := NextOp(scopes, s, t).lock;
    assert l in HeldBy(s, u) <==> l in s.owner && s.owner[l] == u;
    match u
    case Worker(a) => WorkerLockOrder(a, s.workers[a], s.nodes[a]);
    case Control => ControlLockOrder(scopes, s);
  }

  lemma {:induction false} ChainFrom(scopes: seq<Scope>, s: State, t: Thread, r: nat) returns (chain: seq<Thread>)
    requires LockInv(s) && Unfinished(s, t)
    requires NextOp(scopes, s, t).Take? ==> r <= Rank(NextOp(scopes, s, t).lock)
    requires r <= 3
    ensures EndsInStep(scopes, s, chain) && chain[0] == t && |chain| <= 4 - r
    decreases 3 - r
  {
    if CanStep(scopes, s, t) {
      chain := [t];
    } else {
      var l := NextOp(scopes, s, t).lock;
      var u := s.owner[l];
      assert WaitsFor(scopes, s, t, u);
      HolderIsAhead(scopes, s, t, u);
      var rest := ChainFrom(scopes, s, u, Rank(l) + 1);
      chain := [t] + rest;
    }
  }

  /** Deadlock freedom. In every reachable state, from every unfinished thread the chain "waits
      for the thread that holds the lock it wants" ends, after at most three hops, in a thread
      that can step: no thread is ever blocked by a cycle or by a thread that has finished. */
  lemma DeadlockFreedom(scopes: seq<Scope>, states: seq<State>, labels: seq<Label>, i: nat, t: Thread)
      returns (chain: seq<Thread>)
    requires Run(scopes, states, labels) && i < |states| && Unfinished(states[i], t)
    ensures |states[i].nodes| == |states[i].workers|
    ensures EndsInStep(scopes, states[i], chain) && chain[0] == t && |chain| <= 4
  {
    RunKeepsLocks(scopes, states, labels, i);
    chain := ChainFrom(scopes, states[i], t, 0);
  }
}
