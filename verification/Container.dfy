/** The three-index container as an object that its operations update in place. */
module Container {
  import opened Mqtt
  import opened Subscriptions

  ghost predicate SameRecords(a: seq<Subscription>, b: seq<Subscription>) {
    forall s :: s in a <==> s in b
  }

  class SubscriptionContainer {
    var byTopic: seq<Subscription>
    var byConnection: seq<Subscription>
    var byPair: seq<Subscription>

    ghost predicate Valid()
      reads this
    {
      && Sound(ByTopic, byTopic) && Sound(ByConnection, byConnection) && Sound(ByPair, byPair)
      && SameRecords(byTopic, byConnection) && SameRecords(byTopic, byPair)
    }

    /** The records, as one map keyed by connection and filter. */
    ghost function Records(): map<Key, Subscription>
      reads this
      requires Valid()
    {
      Table(byTopic)
    }

    constructor ()
      ensures Valid() && byTopic == byConnection == byPair == [] && Records() == map[]
    {
      byTopic, byConnection, byPair := [], [], [];
      new;
      SameTable([], map[]);
    }

    /** Insert unless a record of the same connection and filter exists: then nothing changes, so
        a repeated subscription keeps its old options. */
    method Emplace(s: Subscription) returns (inserted: bool)
      requires Valid()
      modifies this
      ensures Valid()
      ensures inserted <==> KeyOf(s) !in old(Records())
      ensures byTopic == ApplyToView(ByTopic, old(byTopic), Operation.Emplace(s))
      ensures byConnection == ApplyToView(ByConnection, old(byConnection), Operation.Emplace(s))
      ensures byPair == ApplyToView(ByPair, old(byPair), Operation.Emplace(s))
      ensures Records() == ApplyToMap(old(Records()), Operation.Emplace(s))
      ensures FiltersAscend(byTopic)
      ensures inserted ==> ComesLast(old(byTopic), s, byTopic)
    {
      var p := FindUpper(ByPair, byPair, s);
      UniqueTest(byTopic, byConnection, byPair, s, p);
      OperationRefinesMap(ByTopic, byTopic, Operation.Emplace(s));
      if p > 0 && KeyOf(byPair[p - 1]) == KeyOf(s) { return false; }
      InsertInAll(byTopic, byConnection, byPair, s);
      var t := FindUpper(ByTopic, byTopic, s);
      var c := FindUpper(ByConnection, byConnection, s);
      byTopic := byTopic[..t] + [s] + byTopic[t..];
      byConnection := byConnection[..c] + [s] + byConnection[c..];
      byPair := byPair[..p] + [s] + byPair[p..];
      inserted := true;
    }

    /** Erase by key on the topic index: every record of the filter goes, whichever connection
        made it. */
    method EraseTopic(filter: string) returns (count: nat)
      requires Valid()
      modifies this
      ensures Valid() && count == |old(byTopic)| - |byTopic|
      ensures byTopic == ApplyToView(ByTopic, old(byTopic), Operation.EraseTopic(filter))
      ensures byConnection == ApplyToView(ByConnection, old(byConnection), Operation.EraseTopic(filter))
      ensures byPair == ApplyToView(ByPair, old(byPair), Operation.EraseTopic(filter))
      ensures Records() == ApplyToMap(old(Records()), Operation.EraseTopic(filter))
    {
      ghost var sel := OfTopic(filter);
      WithoutKeeps(ByTopic, byTopic, sel);
      WithoutKeeps(ByConnection, byConnection, sel);
      WithoutKeeps(ByPair, byPair, sel);
      OperationRefinesMap(ByTopic, byTopic, Operation.EraseTopic(filter));
      var lo, hi := EqualRange(ByTopic, byTopic, OfTopic(filter));
      count := hi - lo;
      byTopic := byTopic[..lo] + byTopic[hi..];
      byConnection := Unlink(byConnection, OfTopic(filter));
      byPair := Unlink(byPair, OfTopic(filter));
    }

    /** Erase the equal range of a connection on the connection index. */
    method EraseConnection(con: Connection)
      requires Valid()
      modifies this
      ensures Valid()
      ensures byTopic == ApplyToView(ByTopic, old(byTopic), Operation.EraseConnection(con))
      ensures byConnection == ApplyToView(ByConnection, old(byConnection), Operation.EraseConnection(con))
      ensures byPair == ApplyToView(ByPair, old(byPair), Operation.EraseConnection(con))
      ensures Records() == ApplyToMap(old(Records()), Operation.EraseConnection(con))
    {
      ghost var sel := OfConnection(con);
      WithoutKeeps(ByTopic, byTopic, sel);
      WithoutKeeps(ByConnection, byConnection, sel);
      WithoutKeeps(ByPair, byPair, sel);
      OperationRefinesMap(ByTopic, byTopic, Operation.EraseConnection(con));
      var lo, hi := EqualRange(ByConnection, byConnection, OfConnection(con));
      byConnection := byConnection[..lo] + byConnection[hi..];
      byTopic := Unlink(byTopic, OfConnection(con));
      byPair := Unlink(byPair, OfConnection(con));
    }
  }

  // ----- Searches and removals on one index -----------------------------------------------

  method FindUpper(ix: Index, view: seq<Subscription>, s: Subscription) returns (k: nat)
    ensures k == UpperBound(ix, view, s)
  {
    k := 0;
    while k < |view| && !Less(ix, s, view[k])
      invariant 0 <= k <= |view|
      invariant UpperBound(ix, view, s) == k + UpperBound(ix, view[k..], s)
    {
      assert view[k..][1..] == view[k + 1..];
      k := k + 1;
    }
    assert k < |view| ==> view[k..][0] == view[k];
  }

  /** The two selectors the program erases by, each on the index ordered by its field. */
  predicate Matched(ix: Index, sel: Selector) {
    (ix == ByTopic && sel.OfTopic?) || (ix == ByConnection && sel.OfConnection?)
  }

  function Probe(sel: Selector): Subscription {
    match sel
    case OfTopic(f) => Subscription(f, 0, 0, false, false)
    case OfConnection(c) => Subscription("", c, 0, false, false)
  }

  /** On an ordered index the selected records are exactly one contiguous range. */
  method EqualRange(ix: Index, view: seq<Subscription>, sel: Selector) returns (lo: nat, hi: nat)
    requires Ordered(ix, view) && Matched(ix, sel)
    ensures lo <= hi <= |view|
    ensures forall i :: 0 <= i < |view| ==> (Selects(sel, view[i]) <==> lo <= i < hi)
    ensures view[..lo] + view[hi..] == Without(view, sel)
  {
    var probe := Probe(sel);
    lo := 0;
    while lo < |view| && Less(ix, view[lo], probe)
      invariant 0 <= lo <= |view|
      invariant forall i :: 0 <= i < lo ==> Less(ix, view[i], probe)
    {
      lo := lo + 1;
    }
    hi := FindUpper(ix, view, probe);
    RangeOfProbe(ix, view, sel, lo, hi);
    WithoutRange(view, sel, lo, hi);
  }

  lemma RangeOfProbe(ix: Index, view: seq<Subscription>, sel: Selector, lo: nat, hi: nat)
    requires Ordered(ix, view) && Matched(ix, sel)
    requires lo <= |view| && forall i :: 0 <= i < lo ==> Less(ix, view[i], Probe(sel))
    requires lo < |view| ==> !Less(ix, view[lo], Probe(sel))
    requires hi == UpperBound(ix, view, Probe(sel))
    ensures lo <= hi
    ensures forall i :: 0 <= i < |view| ==> (Selects(sel, view[i]) <==> lo <= i < hi)
  {
    var probe := Probe(sel);
    if hi < lo { LessIsOrder(ix, probe, view[hi], probe); }
    forall i | 0 <= i < |view| ensures Selects(sel, view[i]) <==> lo <= i < hi {
      StringTotal(view[i].filter, probe.filter);
      StringTotal(probe.filter, probe.filter);
      if i >= hi {
        BeyondUpper(ix, view, probe, hi, i);
      } else if i >= lo {
        if Less(ix, view[i], probe) { BelowLower(ix, view, probe, lo, i); }
      }
    }
  }

  /** Records after the upper bound come after the probe. */
  lemma BeyondUpper(ix: Index, view: seq<Subscription>, s: Subscription, k: nat, i: nat)
    requires Ordered(ix, view) && k <= i < |view| && ix != ByPair && Less(ix, s, view[k])
    ensures Less(ix, s, view[i])
  {
    if k < i {
      assert !Less(ix, view[i], view[k]);
      if ix == ByTopic { NotBefore(view, s, k, i); }
    }
  }

  lemma BelowLower(ix: Index, view: seq<Subscription>, s: Subscription, lo: nat, i: nat)
    requires Ordered(ix, view) && lo <= i < |view| && !Less(ix, view[lo], s) && ix != ByPair
    ensures !Less(ix, view[i], s)
  {
    if Less(ix, view[i], s) && lo < i {
      StringTotal(view[lo].filter, s.filter);
      LessIsOrder(ix, view[i], s, view[lo]);
    }
  }

  lemma {:induction false} WithoutRange(view: seq<Subscription>, sel: Selector, lo: nat, hi: nat)
    requires lo <= hi <= |view|
    requires forall i :: 0 <= i < |view| ==> (Selects(sel, view[i]) <==> lo <= i < hi)
    ensures view[..lo] + view[hi..] == Without(view, sel)
    decreases |view|
  {
    if view != [] {
      var rest := view[1..];
      var l, h := if lo == 0 then 0 else lo - 1, if hi == 0 then 0 else hi - 1;
      forall i | 0 <= i < |rest| ensures Selects(sel, rest[i]) <==> l <= i < h {
        assert rest[i] == view[i + 1];
      }
      WithoutRange(rest, sel, l, h);
      if lo == 0 && hi > 0 {
        assert rest[h..] == view[hi..];
      } else if lo == 0 {
        assert view[..lo] + view[hi..] == [view[0]] + rest;
        assert rest[..l] + rest[h..] == rest;
      } else {
        assert view[..lo] + view[hi..] == [view[0]] + (rest[..l] + rest[h..]);
      }
    }
  }

  /** Taking erased records out of an index that is not searched by the erased key. */
  method Unlink(view: seq<Subscription>, sel: Selector) returns (kept: seq<Subscription>)
    ensures kept == Without(view, sel)
  {
    kept := [];
    var i := |view|;
    while i > 0
      invariant 0 <= i <= |view|
      invariant kept == Without(view[i..], sel)
    {
      i := i - 1;
      assert view[i..][1..] == view[i + 1..];
      if !Selects(sel, view[i]) { kept := [view[i]] + kept; }
    }
    assert view[0..] == view;
  }

  lemma EqualPairs(a: Subscription, b: Subscription)
    ensures !Less(ByPair, a, b) && !Less(ByPair, b, a) <==> KeyOf(a) == KeyOf(b)
  {
    StringTotal(a.filter, b.filter);
    StringTotal(b.filter, a.filter);
  }

  lemma EqualIsBelowUpper(view: seq<Subscription>, s: Subscription, i: nat)
    requires Ordered(ByPair, view) && i < |view| && KeyOf(view[i]) == KeyOf(s)
    ensures i < UpperBound(ByPair, view, s)
  {
    var p := UpperBound(ByPair, view, s);
    EqualPairs(view[i], s);
    if p < |view| { assert Less(ByPair, s, view[p]) == Less(ByPair, view[i], view[p]); }
  }

  /** On the unique index a record with the same key can only be just below the upper bound. */
  lemma NeighbourDecides(view: seq<Subscription>, s: Subscription, p: nat)
    requires Sound(ByPair, view) && p == UpperBound(ByPair, view, s)
    ensures HasKey(view, KeyOf(s)) <==> p > 0 && KeyOf(view[p - 1]) == KeyOf(s)
  {
    if HasKey(view, KeyOf(s)) {
      var i :| 0 <= i < |view| && KeyOf(view[i]) == KeyOf(s);
      EqualIsBelowUpper(view, s, i);
      EqualPairs(view[i], view[p - 1]);
      EqualPairs(view[p - 1], s);
    }
  }

  ghost predicate InStep(t: seq<Subscription>, c: seq<Subscription>, p: seq<Subscription>) {
    && Sound(ByTopic, t) && Sound(ByConnection, c) && Sound(ByPair, p) && SameRecords(t, c) && SameRecords(t, p)
  }

  /** The test on the unique index answers for all three. */
  lemma UniqueTest(t: seq<Subscription>, c: seq<Subscription>, p: seq<Subscription>, s: Subscription, k: nat)
    requires InStep(t, c, p) && k == UpperBound(ByPair, p, s)
    ensures k > 0 && KeyOf(p[k - 1]) == KeyOf(s) <==> HasKey(t, KeyOf(s))
    ensures HasKey(c, KeyOf(s)) == HasKey(p, KeyOf(s)) == HasKey(t, KeyOf(s)) == (KeyOf(s) in Table(t))
    ensures FiltersAscend(t)
  {
    NeighbourDecides(p, s, k);
    SameKeys(t, p, KeyOf(s));
    SameKeys(t, c, KeyOf(s));
    KeyInTable(t, KeyOf(s));
    OrderedAscends(t);
  }

  lemma InsertInAll(t: seq<Subscription>, c: seq<Subscription>, p: seq<Subscription>, s: Subscription)
    requires InStep(t, c, p) && !HasKey(t, KeyOf(s)) && !HasKey(c, KeyOf(s)) && !HasKey(p, KeyOf(s))
    ensures InStep(Insert(ByTopic, t, s), Insert(ByConnection, c, s), Insert(ByPair, p, s))
    ensures FiltersAscend(Insert(ByTopic, t, s)) && ComesLast(t, s, Insert(ByTopic, t, s))
  {
    InsertKeeps(ByTopic, t, s);
    InsertKeeps(ByConnection, c, s);
    InsertKeeps(ByPair, p, s);
    InsertComesLast(t, s);
    OrderedAscends(Insert(ByTopic, t, s));
  }

  lemma SameKeys(a: seq<Subscription>, b: seq<Subscription>, key: Key)
    requires SameRecords(a, b)
    ensures HasKey(a, key) <==> HasKey(b, key)
  {
    if HasKey(a, key) {
      var i :| 0 <= i < |a| && KeyOf(a[i]) == key;
      assert a[i] in b;
    }
    if HasKey(b, key) {
      var i :| 0 <= i < |b| && KeyOf(b[i]) == key;
      assert b[i] in a;
    }
  }
}
