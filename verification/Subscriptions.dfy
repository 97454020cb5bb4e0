/** The subscription container: one set of records kept under three orders. */
module Subscriptions {
  import opened Mqtt

  type Key = (Connection, string)

  function KeyOf(s: Subscription): Key { (s.con, s.filter) }

  // ----- Orders --------------------------------------------------------------------------

  predicate StringLess(a: string, b: string) {
    b != "" && (a == "" || a[0] < b[0] || (a[0] == b[0] && StringLess(a[1..], b[1..])))
  }

  lemma {:induction false} StringTotal(a: string, b: string)
    ensures !StringLess(a, a)
    ensures a == b || StringLess(a, b) || StringLess(b, a)
    decreases |a|
  {
    if a != "" {
      StringTotal(a[1..], if b != "" then b[1..] else b);
      if b != "" && a[0] == b[0] && a[1..] == b[1..] {
        assert a == [a[0]] + a[1..] && b == [b[0]] + b[1..];
      }
    }
  }

  lemma {:induction false} StringTransitive(a: string, b: string, c: string)
    requires StringLess(a, b) && StringLess(b, c)
    ensures StringLess(a, c)
    decreases |a|
  {
    if a != "" && a[0] == b[0] && b[0] == c[0] { StringTransitive(a[1..], b[1..], c[1..]); }
  }

  /** The strings agree up to position `k`, and there `a` has ended or has the smaller character. */
  ghost predicate PrecedesAt(a: string, b: string, k: nat) {
    k <= |a| && k < |b| && a[..k] == b[..k] && (k == |a| || a[k] < b[k])
  }

  /** Lexicographic order. */
  ghost predicate Precedes(a: string, b: string) {
    exists k: nat :: PrecedesAt(a, b, k)
  }

  lemma PrecedesShifts(a: string, b: string, k: nat)
    requires a != "" && b != "" && a[0] == b[0]
    ensures PrecedesAt(a, b, k + 1) <==> PrecedesAt(a[1..], b[1..], k)
    ensures !PrecedesAt(a, b, 0)
  {
    if k < |a| && k + 1 < |b| {
      assert a[..k + 1] == [a[0]] + a[1..][..k] && b[..k + 1] == [b[0]] + b[1..][..k];
      assert a[..k + 1][1..] == a[1..][..k] && b[..k + 1][1..] == b[1..][..k];
    }
  }

  /** The comparison of filters is the lexicographic order of their characters. */
  lemma {:induction false} LessIsLexicographic(a: string, b: string)
    ensures StringLess(a, b) <==> Precedes(a, b)
    decreases |a|
  {
    if a != "" && b != "" && a[0] == b[0] {
      LessIsLexicographic(a[1..], b[1..]);
      if Precedes(a, b) {
        var k: nat :| PrecedesAt(a, b, k);
        PrecedesShifts(a, b, 0);
        PrecedesShifts(a, b, k - 1);
      }
      if Precedes(a[1..], b[1..]) {
        var k: nat :| PrecedesAt(a[1..], b[1..], k);
        PrecedesShifts(a, b, k);
      }
    } else {
      assert StringLess(a, b) <==> PrecedesAt(a, b, 0);
      OnlyAtStart(a, b);
    }
  }

  lemma SameStart(a: string, b: string, k: nat)
    requires 0 < k <= |a| && k <= |b| && a[..k] == b[..k]
    ensures a[0] == b[0]
  {
    assert a[..k][0] == b[..k][0];
  }

  lemma OnlyAtStart(a: string, b: string)
    requires a == "" || b == "" || a[0] != b[0]
    ensures Precedes(a, b) <==> PrecedesAt(a, b, 0)
  {
    forall k: nat | PrecedesAt(a, b, k) ensures k == 0 {
      if k > 0 { SameStart(a, b, k); }
    }
  }

  /** Filters ascend along the topic index. */
  ghost predicate FiltersAscend(view: seq<Subscription>) {
    forall i, j :: 0 <= i < j < |view| ==> view[i].filter == view[j].filter || Precedes(view[i].filter, view[j].filter)
  }

  lemma OrderedAscends(view: seq<Subscription>)
    ensures Ordered(ByTopic, view) <==> FiltersAscend(view)
  {
    forall i, j | 0 <= i < j < |view|
      ensures !Less(ByTopic, view[j], view[i])
              <==> view[i].filter == view[j].filter || Precedes(view[i].filter, view[j].filter)
    {
      LessIsLexicographic(view[i].filter, view[j].filter);
      StringTotal(view[i].filter, view[j].filter);
      StringTotal(view[j].filter, view[i].filter);
      if StringLess(view[i].filter, view[j].filter) && StringLess(view[j].filter, view[i].filter) {
        StringTransitive(view[i].filter, view[j].filter, view[i].filter);
      }
    }
  }

  datatype Index = ByTopic | ByConnection | ByPair

  predicate Less(ix: Index, a: Subscription, b: Subscription) {
    match ix
    case ByTopic => StringLess(a.filter, b.filter)
    case ByConnection => a.con < b.con
    case ByPair => a.con < b.con || (a.con == b.con && StringLess(a.filter, b.filter))
  }

  lemma LessIsOrder(ix: Index, a: Subscription, b: Subscription, c: Subscription)
    ensures !Less(ix, a, a)
    ensures Less(ix, a, b) && Less(ix, b, c) ==> Less(ix, a, c)
  {
    StringTotal(a.filter, a.filter);
    if StringLess(a.filter, b.filter) && StringLess(b.filter, c.filter) {
      StringTransitive(a.filter, b.filter, c.filter);
    }
  }

  ghost predicate Ordered(ix: Index, view: seq<Subscription>) {
    forall i, j :: 0 <= i < j < |view| ==> !Less(ix, view[j], view[i])
  }

  ghost predicate UniqueKeys(view: seq<Subscription>) {
    forall i, j :: 0 <= i < j < |view| ==> KeyOf(view[i]) != KeyOf(view[j])
  }

  // ----- What the operations do to one view ------------------------------------------------

  predicate HasKey(view: seq<Subscription>, key: Key) {
    exists i :: 0 <= i < |view| && KeyOf(view[i]) == key
  }

  /** The position after the last record that `s` does not precede. */
  function UpperBound(ix: Index, view: seq<Subscription>, s: Subscription): (k: nat)
    ensures k <= |view|
    ensures forall i :: 0 <= i < k ==> !Less(ix, s, view[i])
    ensures k < |view| ==> Less(ix, s, view[k])
  {
    if view == [] || Less(ix, s, view[0]) then 0 else 1 + UpperBound(ix, view[1..], s)
  }

  function Insert(ix: Index, view: seq<Subscription>, s: Subscription): seq<Subscription> {
    var k := UpperBound(ix, view, s);
    view[..k] + [s] + view[k..]
  }

  /** Insert if no record has the same connection and filter. */
  function Emplaced(ix: Index, view: seq<Subscription>, s: Subscription): seq<Subscription> {
    if HasKey(view, KeyOf(s)) then view else Insert(ix, view, s)
  }

  datatype Selector = OfTopic(filter: string) | OfConnection(con: Connection)

  predicate Selects(sel: Selector, s: Subscription) {
    match sel
    case OfTopic(f) => s.filter == f
    case OfConnection(c) => s.con == c
  }

  function Without(view: seq<Subscription>, sel: Selector): seq<Subscription> {
    if view == [] then []
    else (if Selects(sel, view[0]) then [] else [view[0]]) + Without(view[1..], sel)
  }

  ghost predicate Sound(ix: Index, view: seq<Subscription>) { Ordered(ix, view) && UniqueKeys(view) }

  lemma InsertKeepsOrder(ix: Index, view: seq<Subscription>, s: Subscription)
    requires Ordered(ix, view)
    ensures Ordered(ix, Insert(ix, view, s))
  {
    var k := UpperBound(ix, view, s);
    var wider := Insert(ix, view, s);
    forall j | k <= j < |view| ensures !Less(ix, view[j], s) {
      LessIsOrder(ix, view[j], s, view[k]);
      LessIsOrder(ix, s, view[k], s);
    }
    forall i, j | 0 <= i < j < |wider| ensures !Less(ix, wider[j], wider[i]) {
      var p, q := if i <= k then i else i - 1, if j <= k then j else j - 1;
      assert i != k ==> wider[i] == view[p];
      assert j != k ==> wider[j] == view[q];
    }
  }

  lemma InsertKeepsKeys(view: seq<Subscription>, s: Subscription, k: nat)
    requires k <= |view| && UniqueKeys(view) && !HasKey(view, KeyOf(s))
    ensures UniqueKeys(view[..k] + [s] + view[k..])
  {
    var wider := view[..k] + [s] + view[k..];
    forall i, j | 0 <= i < j < |wider| ensures KeyOf(wider[i]) != KeyOf(wider[j]) {
      var p, q := if i <= k then i else i - 1, if j <= k then j else j - 1;
      if i != k { assert wider[i] == view[p]; }
      if j != k { assert wider[j] == view[q]; }
    }
  }

  lemma InsertMembers(view: seq<Subscription>, s: Subscription, k: nat)
    requires k <= |view|
    ensures forall x :: x in view[..k] + [s] + view[k..] <==> x == s || x in view
  {
    assert view == view[..k] + view[k..];
  }

  lemma InsertKeeps(ix: Index, view: seq<Subscription>, s: Subscription)
    requires Sound(ix, view) && !HasKey(view, KeyOf(s))
    ensures Sound(ix, Insert(ix, view, s))
    ensures forall x :: x in Insert(ix, view, s) <==> x == s || x in view
  {
    InsertKeepsOrder(ix, view, s);
    InsertKeepsKeys(view, s, UpperBound(ix, view, s));
    InsertMembers(view, s, UpperBound(ix, view, s));
  }

  /** A record comes in after all records whose filter is not greater, so after those of its own
      filter, and before all others; the others stay as they were. */
  ghost predicate ComesLast(view: seq<Subscription>, s: Subscription, wider: seq<Subscription>) {
    exists k: nat :: IsPlace(view, s, k) && wider == view[..k] + [s] + view[k..]
  }

  ghost predicate IsPlace(view: seq<Subscription>, s: Subscription, k: nat) {
    && k <= |view|
    && (forall i :: 0 <= i < k ==> view[i].filter == s.filter || Precedes(view[i].filter, s.filter))
    && (forall i :: k <= i < |view| ==> Precedes(s.filter, view[i].filter))
  }

  lemma InsertComesLast(view: seq<Subscription>, s: Subscription)
    requires Ordered(ByTopic, view)
    ensures ComesLast(view, s, Insert(ByTopic, view, s))
  {
    var k := UpperBound(ByTopic, view, s);
    forall i | 0 <= i < |view|
      ensures if i < k then view[i].filter == s.filter || Precedes(view[i].filter, s.filter)
              else Precedes(s.filter, view[i].filter)
    {
      StringTotal(view[i].filter, s.filter);
      LessIsLexicographic(view[i].filter, s.filter);
      LessIsLexicographic(s.filter, view[i].filter);
      if i > k { NotBefore(view, s, k, i); }
    }
    assert IsPlace(view, s, k);
  }

  lemma NotBefore(view: seq<Subscription>, s: Subscription, k: nat, i: nat)
    requires Ordered(ByTopic, view) && k < i < |view| && Less(ByTopic, s, view[k])
    ensures StringLess(s.filter, view[i].filter)
  {
    StringTotal(view[k].filter, view[i].filter);
    if StringLess(view[k].filter, view[i].filter) { StringTransitive(s.filter, view[k].filter, view[i].filter); }
  }

  lemma {:induction false} WithoutKeeps(ix: Index, view: seq<Subscription>, sel: Selector)
    requires Sound(ix, view)
    ensures Sound(ix, Without(view, sel))
    ensures forall x :: x in Without(view, sel) <==> x in view && !Selects(sel, x)
    decreases |view|
  {
    if view != [] {
      var rest := view[1..];
      WithoutKeeps(ix, rest, sel);
      var kept := Without(rest, sel);
      assert view == [view[0]] + rest;
      forall i | 0 <= i < |kept|
        ensures !Less(ix, kept[i], view[0]) && KeyOf(kept[i]) != KeyOf(view[0])
      {
        assert kept[i] in rest;
        var j :| 0 <= j < |rest| && rest[j] == kept[i];
        assert rest[j] == view[j + 1];
      }
    }
  }

  // ----- The map that the three views represent -------------------------------------------

  ghost function Table(view: seq<Subscription>): (m: map<Key, Subscription>)
    requires UniqueKeys(view)
    ensures forall s :: s in view <==> KeyOf(s) in m && m[KeyOf(s)] == s
    ensures forall k :: k in m ==> KeyOf(m[k]) == k
  {
    map s | s in view :: KeyOf(s) := s
  }

  datatype Operation = Emplace(sub: Subscription) | EraseTopic(filter: string) | EraseConnection(con: Connection)

  function ApplyToView(ix: Index, view: seq<Subscription>, op: Operation): seq<Subscription> {
    match op
    case Emplace(s) => Emplaced(ix, view, s)
    case EraseTopic(f) => Without(view, OfTopic(f))
    case EraseConnection(c) => Without(view, OfConnection(c))
  }

  /** The same operation on one map keyed by connection and filter. */
  function ApplyToMap(m: map<Key, Subscription>, op: Operation): map<Key, Subscription> {
    match op
    case Emplace(s) => if KeyOf(s) in m then m else m[KeyOf(s) := s]
    case EraseTopic(f) => map k | k in m && k.1 != f :: m[k]
    case EraseConnection(c) => map k | k in m && k.0 != c :: m[k]
  }

  lemma SameTable(view: seq<Subscription>, m: map<Key, Subscription>)
    requires UniqueKeys(view)
    requires forall s :: s in view <==> KeyOf(s) in m && m[KeyOf(s)] == s
    requires forall k :: k in m ==> KeyOf(m[k]) == k
    ensures Table(view) == m
  {
    var t := Table(view);
    forall k ensures k in t <==> k in m {
      if k in t { assert t[k] in view; }
      if k in m { assert m[k] in view; }
    }
    forall k | k in m ensures t[k] == m[k] { assert m[k] in view; }
  }

  lemma KeyInTable(view: seq<Subscription>, key: Key)
    requires UniqueKeys(view)
    ensures HasKey(view, key) <==> key in Table(view)
  {
    if key in Table(view) { assert Table(view)[key] in view; }
    if HasKey(view, key) {
      var i :| 0 <= i < |view| && KeyOf(view[i]) == key;
      assert view[i] in view;
    }
  }

  /** Every operation keeps a view in order with unique keys, and acts on it as on the map. */
  lemma OperationRefinesMap(ix: Index, view: seq<Subscription>, op: Operation)
    requires Sound(ix, view)
    ensures Sound(ix, ApplyToView(ix, view, op))
    ensures Table(ApplyToView(ix, view, op)) == ApplyToMap(Table(view), op)
  {
    var m := Table(view);
    match op
    case Emplace(s) =>
      KeyInTable(view, KeyOf(s));
      if !HasKey(view, KeyOf(s)) {
        InsertKeeps(ix, view, s);
        SameTable(Insert(ix, view, s), m[KeyOf(s) := s]);
      }
    case EraseTopic(f) =>
      WithoutKeeps(ix, view, OfTopic(f));
      SameTable(Without(view, OfTopic(f)), ApplyToMap(m, op));
    case EraseConnection(c) =>
      WithoutKeeps(ix, view, OfConnection(c));
      SameTable(Without(view, OfConnection(c)), ApplyToMap(m, op));
  }

  function RunOnView(ix: Index, ops: seq<Operation>): seq<Subscription> {
    if ops == [] then [] else ApplyToView(ix, RunOnView(ix, ops[..|ops| - 1]), ops[|ops| - 1])
  }

  function RunOnMap(ops: seq<Operation>): map<Key, Subscription> {
    if ops == [] then map[] else ApplyToMap(RunOnMap(ops[..|ops| - 1]), ops[|ops| - 1])
  }

  /** After any run of operations each of the three views is in its order (the topic view by the
      lexicographic order of its filters), has unique keys and holds exactly the records of the
      one map. */
  lemma {:induction false} ViewsRefineOneMap(ix: Index, ops: seq<Operation>)
    ensures Sound(ix, RunOnView(ix, ops))
    ensures Table(RunOnView(ix, ops)) == RunOnMap(ops)
    ensures ix == ByTopic ==> FiltersAscend(RunOnView(ix, ops))
    decreases |ops|
  {
    OrderedAscends(RunOnView(ix, ops));
    if ops == [] {
      SameTable([], map[]);
    } else {
      ViewsRefineOneMap(ix, ops[..|ops| - 1]);
      OperationRefinesMap(ix, RunOnView(ix, ops[..|ops| - 1]), ops[|ops| - 1]);
    }
  }

  predicate Inserts(op: Operation, key: Key) { op.Emplace? && KeyOf(op.sub) == key }

  predicate Erases(op: Operation, key: Key) {
    (op.EraseTopic? && op.filter == key.1) || (op.EraseConnection? && op.con == key.0)
  }

  ghost predicate ErasedBetween(ops: seq<Operation>, key: Key, from: int, to: int) {
    exists j :: 0 <= from <= j < to <= |ops| && Erases(ops[j], key)
  }

  /** Operation `i` is the earliest insertion of `key` since the key was last erased. */
  ghost predicate EarliestLive(ops: seq<Operation>, key: Key, i: int) {
    && 0 <= i < |ops| && Inserts(ops[i], key)
    && !ErasedBetween(ops, key, i + 1, |ops|)
    && forall j :: 0 <= j < i && Inserts(ops[j], key) ==> ErasedBetween(ops, key, j + 1, i)
  }

  /** A key has a record exactly when it was inserted and not erased since, and the record is the
      one of the earliest such insertion: later re-subscriptions do not change the options. */
  lemma {:induction false} RecordIsEarliestInsertion(ops: seq<Operation>, key: Key)
    ensures key in RunOnMap(ops) <==> exists i :: EarliestLive(ops, key, i)
    ensures key in RunOnMap(ops)
            ==> exists i :: EarliestLive(ops, key, i) && RunOnMap(ops)[key] == ops[i].sub
    ensures key !in RunOnMap(ops)
            ==> forall i :: 0 <= i < |ops| && Inserts(ops[i], key) ==> ErasedBetween(ops, key, i + 1, |ops|)
    decreases |ops|
  {
    if ops != [] {
      var n := |ops| - 1;
      var init, last := ops[..n], ops[n];
      RecordIsEarliestInsertion(init, key);
      forall i, j | 0 <= i <= j <= n
        ensures ErasedBetween(init, key, i, j) <==> ErasedBetween(ops, key, i, j)
      {
        ErasedInPrefix(ops, key, i, j, n);
      }
      forall i | 0 <= i <= n
        ensures ErasedBetween(ops, key, i, n + 1) <==> ErasedBetween(ops, key, i, n) || Erases(last, key)
      {
        ErasedStep(ops, key, i);
      }
      forall i | 0 <= i < n
        ensures EarliestLive(ops, key, i) <==> EarliestLive(init, key, i) && !Erases(last, key)
      {}
      assert !ErasedBetween(ops, key, n + 1, n + 1);
      if key in RunOnMap(init) {
        var i :| EarliestLive(init, key, i) && RunOnMap(init)[key] == init[i].sub;
        assert !Erases(last, key) ==> EarliestLive(ops, key, i);
      }
      assert Inserts(last, key) && key !in RunOnMap(init) ==> EarliestLive(ops, key, n);
    }
  }

  lemma ErasedInPrefix(ops: seq<Operation>, key: Key, i: int, j: int, n: int)
    requires 0 <= i <= j <= n <= |ops|
    ensures ErasedBetween(ops[..n], key, i, j) <==> ErasedBetween(ops, key, i, j)
  {
    if ErasedBetween(ops, key, i, j) {
      var e :| 0 <= i <= e < j <= |ops| && Erases(ops[e], key);
      assert Erases(ops[..n][e], key);
    }
    if ErasedBetween(ops[..n], key, i, j) {
      var e :| 0 <= i <= e < j <= |ops[..n]| && Erases(ops[..n][e], key);
      assert Erases(ops[e], key);
    }
  }

  lemma ErasedStep(ops: seq<Operation>, key: Key, i: int)
    requires ops != [] && 0 <= i < |ops|
    ensures ErasedBetween(ops, key, i, |ops|)
            <==> ErasedBetween(ops, key, i, |ops| - 1) || Erases(ops[|ops| - 1], key)
  {
    if Erases(ops[|ops| - 1], key) { assert ErasedBetween(ops, key, i, |ops|); }
    if ErasedBetween(ops, key, i, |ops| - 1) {
      var e :| 0 <= i <= e < |ops| - 1 && Erases(ops[e], key);
      assert ErasedBetween(ops, key, i, |ops|);
    }
  }
}
