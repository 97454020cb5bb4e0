/** A drain of the queue while every worker keeps running: it takes the queue as it found it, and
    it comes to an end. */
module Drains {
  import opened Scopes
  import opened Machine
  import opened Locks
  import opened Sessions
  import opened History

  predicate Draining(c: ControlPc) { QueueLock in HeldByControl(c) }

  /** The worker does not hold the lock that the control thread holds. */
  lemma OtherHolds(s: State, a: nat, l: Lock)
    requires LockInv(s) && a < |s.workers| && l in HeldByControl(s.control)
    ensures l !in HeldByWorker(a, s.workers[a])
  {
    assert l in HeldBy(s, Control) <==> l in s.owner && s.owner[l] == Control;
    assert l in HeldBy(s, Worker(a)) <==> l in s.owner && s.owner[l] == Worker(a);
  }

  /** No step pushes while the queue is being drained, and none of the workers' steps takes
      anything from it. */
  lemma QueueFrozen(scopes: seq<Scope>, s: State, l: Label, s': State)
    requires LockInv(s) && Next(scopes, s, l, s') && Draining(s.control)
    ensures s'.pushed == s.pushed
    ensures !l.Drive? ==> s'.queue == s.queue && s'.control == s.control
  {
    if l.Work? { OtherHolds(s, l.a, QueueLock); }
  }

  lemma {:induction false} PushedWhileDraining(scopes: seq<Scope>, states: seq<State>, labels: seq<Label>, i: nat,
                                                j: nat)
    requires Run(scopes, states, labels) && i <= j < |states|
    requires forall k :: i <= k < j ==> Draining(states[k].control)
    ensures states[j].pushed == states[i].pushed
    decreases j
  {
    if i < j {
      PushedWhileDraining(scopes, states, labels, i, j - 1);
      RunKeepsLocks(scopes, states, labels, j - 1);
      QueueFrozen(scopes, states[j - 1], labels[j - 1], states[j]);
    }
  }

  /** The step that ends a drain leaves the queue empty. */
  lemma DrainEndsEmpty(scopes: seq<Scope>, s: State, l: Label, s': State)
    requires LockInv(s) && QueueInv(scopes, s) && Next(scopes, s, l, s')
    requires Draining(s.control) && !Draining(s'.control)
    ensures s'.queue == []
  {
    QueueFrozen(scopes, s, l, s');
  }

  /** From taking the queue mutex to releasing it the control thread dispatches exactly the items
      that were in the queue when it took the mutex, in order; none is pushed meanwhile, and the
      queue is left empty. */
  lemma DrainTakesWholeQueue(scopes: seq<Scope>, states: seq<State>, labels: seq<Label>, i: nat, j: nat)
    requires Run(scopes, states, labels) && i < j < |states|
    requires states[i].control == Checking && !Draining(states[j].control)
    requires forall k :: i <= k < j ==> Draining(states[k].control)
    ensures states[j].queue == [] && states[j].pushed == states[i].pushed
    ensures states[j].dispatched == states[i].dispatched + states[i].queue
  {
    RunKeepsHistory(scopes, states, labels, i);
    RunKeepsHistory(scopes, states, labels, j - 1);
    RunKeepsHistory(scopes, states, labels, j);
    PushedWhileDraining(scopes, states, labels, i, j);
    DrainEndsEmpty(scopes, states[j - 1], labels[j - 1], states[j]);
    assert states[j].dispatched + states[j].queue == states[j].dispatched;
  }

  // ----- A drain comes to an end ------------------------------------------------------------------

  /** Items left, then adapters left for the front item, then subscriptions left at the adapter. */
  datatype Work3 = Work3(items: int, adapters: int, subs: int)

  function LeftAt(s: State, a: nat, i: nat): int { if a < |s.nodes| then 3 * (|s.nodes[a].subs| - i) else 0 }

  function DrainLeft(s: State): Work3 {
    var n := |s.nodes|;
    match s.control
    case Checking => Work3(|s.queue|, 3 * n + 1, 0)
    case Routing(a) => Work3(|s.queue|, 3 * (n - a), 0)
    case WantSubsInject(a) => Work3(|s.queue|, 3 * (n - a) - 1, 0)
    case Injecting(a, i) => Work3(|s.queue|, 3 * (n - a) - 2, LeftAt(s, a, i))
    case WantLogInject(a, i) => Work3(|s.queue|, 3 * (n - a) - 2, LeftAt(s, a, i) + 2)
    case HasLogInject(a, i) => Work3(|s.queue|, 3 * (n - a) - 2, LeftAt(s, a, i) + 1)
    case _ => Work3(0, 0, 0)
  }

  predicate Natural(w: Work3) { w.items >= 0 && w.adapters >= 0 && w.subs >= 0 }

  predicate LessWork(v: Work3, w: Work3) {
    || v.items < w.items
    || (v.items == w.items && v.adapters < w.adapters)
    || (v.items == w.items && v.adapters == w.adapters && v.subs < w.subs)
  }

  /** The store that the control thread is looping over does not change under it. */
  lemma LoopedStoreFrozen(scopes: seq<Scope>, s: State, l: Label, s': State, a: nat)
    requires LockInv(s) && Next(scopes, s, l, s') && InjectingAt(s.control, a) && a < |s.nodes|
    ensures |s'.nodes| == |s.nodes| && s'.nodes[a].subs == s.nodes[a].subs
  {
    match l
    case Work(b) => OtherHolds(s, b, SubsLock(a));
    case Drive(timeout) => ControlOnlyLogs(scopes, s, timeout, a);
    case _ =>
  }

  /** The position of an injection loop is never past the end of the store it loops over. */
  lemma PositionInRange(scopes: seq<Scope>, s: State, a: nat)
    requires HistoryInv(scopes, s) && InjectingAt(s.control, a)
    ensures a < |s.nodes| && s.control.i <= |s.nodes[a].subs|
  {
    assert AdapterInv(scopes, s, a);
    LoopExcludes(s, a);
    PublishingHolds(a, s.workers[a]);
  }

  lemma ControlDoesLess(scopes: seq<Scope>, s: State, timeout: bool)
    requires Shaped(scopes, s) && QueueInv(scopes, s) && Draining(s.control)
    requires Draining(AfterDrive(scopes, s, timeout).control)
    requires forall a: nat :: InjectingAt(s.control, a) ==>
               a < |s.nodes| && AfterDrive(scopes, s, timeout).nodes[a].subs == s.nodes[a].subs
    ensures LessWork(DrainLeft(AfterDrive(scopes, s, timeout)), DrainLeft(s))
  {}

  /** During a drain every step of the control thread leaves less to do, in a well-founded order,
      and no step of another thread leaves more: a drain ends after finitely many of its steps. */
  lemma DrainMakesProgress(scopes: seq<Scope>, s: State, l: Label, s': State)
    requires HistoryInv(scopes, s) && Next(scopes, s, l, s') && Draining(s.control)
    ensures Natural(DrainLeft(s))
    ensures l.Drive? && Draining(s'.control) ==> LessWork(DrainLeft(s'), DrainLeft(s))
    ensures !l.Drive? ==> DrainLeft(s') == DrainLeft(s)
  {
    QueueFrozen(scopes, s, l, s');
    forall a: nat | InjectingAt(s.control, a)
      ensures a < |s.nodes| && s'.nodes[a].subs == s.nodes[a].subs && s.control.i <= |s.nodes[a].subs|
    {
      PositionInRange(scopes, s, a);
      LoopedStoreFrozen(scopes, s, l, s', a);
    }
    if l.Drive? && Draining(s'.control) { ControlDoesLess(scopes, s, l.timeout); }
  }
}
