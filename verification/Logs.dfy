/** Histories as functions: what a list of delivery loops has sent, which loops were for an
    adapter's own publications, and which queued items were injected. */
module Logs {
  import opened Mqtt
  import opened Scopes
  import opened Publications
  import opened Machine

  // ----- What loops send ------------------------------------------------------------------------

  function LoopLog(origin: nat, index: nat, src: Source, subs: seq<Subscription>): seq<Sent> {
    if subs == [] then []
    else LoopLog(origin, index, src, subs[..|subs| - 1]) + SentFor(origin, index, src, subs[|subs| - 1])
  }

  /** What a loop has sent when it stands at position `i`. */
  function PartOf(loop: Loop, i: nat): seq<Sent>
    requires i <= |loop.subs|
  {
    LoopLog(loop.origin, loop.index, loop.src, loop.subs[..i])
  }

  function LogOf(loops: seq<Loop>): seq<Sent> {
    if loops == [] then [] else
      var last := loops[|loops| - 1];
      LogOf(loops[..|loops| - 1]) + PartOf(last, |last.subs|)
  }

  lemma PartStep(loop: Loop, i: nat)
    requires i < |loop.subs|
    ensures PartOf(loop, i + 1) == PartOf(loop, i) + SentFor(loop.origin, loop.index, loop.src, loop.subs[i])
  {
    assert loop.subs[..i + 1][..i] == loop.subs[..i];
  }

  function Deliveries(log: seq<Sent>): seq<Delivery> {
    if log == [] then [] else Deliveries(log[..|log| - 1]) + [log[|log| - 1].delivery]
  }

  lemma {:induction false} DeliveriesJoin(x: seq<Sent>, y: seq<Sent>)
    ensures Deliveries(x + y) == Deliveries(x) + Deliveries(y)
    decreases |y|
  {
    if y == [] {
      assert x + y == x;
    } else {
      DeliveriesJoin(x, y[..|y| - 1]);
      assert (x + y)[..|x + y| - 1] == x + y[..|y| - 1];
    }
  }

  lemma SentForIsCopies(origin: nat, index: nat, src: Source, sub: Subscription)
    ensures Deliveries(SentFor(origin, index, src, sub)) == Copies(src, sub)
  {
    CopiesShape(src, sub);
    var out := SentFor(origin, index, src, sub);
    if out != [] { assert out[..0] == []; }
  }

  /** A finished loop has sent the fan-out of its source over the records it found. */
  lemma {:induction false} LoopSendsFanout(origin: nat, index: nat, src: Source, subs: seq<Subscription>)
    ensures Deliveries(LoopLog(origin, index, src, subs)) == Fanout(src, subs)
    decreases |subs|
  {
    if subs != [] {
      var n := |subs| - 1;
      LoopSendsFanout(origin, index, src, subs[..n]);
      DeliveriesJoin(LoopLog(origin, index, src, subs[..n]), SentFor(origin, index, src, subs[n]));
      SentForIsCopies(origin, index, src, subs[n]);
    }
  }

  /** Every entry of a loop's log carries the loop's own source through one of its records. */
  ghost predicate EntryOf(e: Sent, loop: Loop) {
    && e.origin == loop.origin && e.index == loop.index && e.sub in loop.subs
    && Copies(loop.src, e.sub) == [e.delivery]
  }

  lemma {:induction false} LoopEntries(loop: Loop, i: nat)
    requires i <= |loop.subs|
    ensures forall e :: e in PartOf(loop, i) ==> EntryOf(e, loop)
    decreases i
  {
    if i > 0 {
      LoopEntries(loop, i - 1);
      PartStep(loop, i - 1);
      CopiesShape(loop.src, loop.subs[i - 1]);
    }
  }

  lemma {:induction false} LogEntries(loops: seq<Loop>)
    ensures forall e :: e in LogOf(loops) ==> exists x :: 0 <= x < |loops| && EntryOf(e, loops[x])
    decreases |loops|
  {
    if loops != [] {
      var n := |loops| - 1;
      LogEntries(loops[..n]);
      LoopEntries(loops[n], |loops[n].subs|);
      forall e | e in LogOf(loops) ensures exists x :: 0 <= x < |loops| && EntryOf(e, loops[x]) {
        if e in LogOf(loops[..n]) {
          var x :| 0 <= x < n && EntryOf(e, loops[..n][x]);
          assert EntryOf(e, loops[x]);
        } else {
          assert EntryOf(e, loops[n]);
        }
      }
    }
  }

  // ----- Which loops ran ----------------------------------------------------------------------------

  /** The loops of adapter `a` over its own publications. */
  function OwnLoops(loops: seq<Loop>, a: nat): seq<Loop> {
    if loops == [] then [] else
      var n := |loops| - 1;
      OwnLoops(loops[..n], a) + if loops[n].origin == a then [loops[n]] else []
  }

  /** The injection log of an adapter: the items of all its loops that were not for a handler. */
  function Injections(loops: seq<Loop>): seq<Item> {
    if loops == [] then [] else
      var n := |loops| - 1;
      Injections(loops[..n])
      + if loops[n].src.FromQueue? then [Item(loops[n].origin, loops[n].index, loops[n].src.message)] else []
  }

  lemma LoopsExtend(loops: seq<Loop>, loop: Loop, a: nat)
    ensures OwnLoops(loops + [loop], a) == OwnLoops(loops, a) + if loop.origin == a then [loop] else []
    ensures Injections(loops + [loop])
            == Injections(loops)
               + if loop.src.FromQueue? then [Item(loop.origin, loop.index, loop.src.message)] else []
  {
    assert (loops + [loop])[..|loops|] == loops;
  }

  /** The items of a stretch of the queue that are for adapter `a`: those of other adapters whose
      topic its scope includes. */
  function Admitted(scopes: seq<Scope>, a: nat, items: seq<Item>): seq<Item>
    requires a < |scopes|
  {
    if items == [] then [] else
      var n := |items| - 1;
      Admitted(scopes, a, items[..n])
      + if items[n].origin != a && Includes(scopes[a], items[n].message.topic) then [items[n]] else []
  }

  lemma {:induction false} AdmittedMembers(scopes: seq<Scope>, a: nat, items: seq<Item>)
    requires a < |scopes|
    ensures forall it :: it in Admitted(scopes, a, items)
                         <==> it in items && it.origin != a && Includes(scopes[a], it.message.topic)
    decreases |items|
  {
    if items != [] {
      var n := |items| - 1;
      AdmittedMembers(scopes, a, items[..n]);
      assert items == items[..n] + [items[n]];
    }
  }

  /** The items that adapter `b` pushed. */
  function ItemsFrom(items: seq<Item>, b: nat): seq<Item> {
    if items == [] then [] else
      var n := |items| - 1;
      ItemsFrom(items[..n], b) + if items[n].origin == b then [items[n]] else []
  }

  lemma ItemsExtend(scopes: seq<Scope>, a: nat, items: seq<Item>, item: Item, b: nat)
    requires a < |scopes|
    ensures Admitted(scopes, a, items + [item])
            == Admitted(scopes, a, items) + if AdmitsItem(scopes, a, item) then [item] else []
    ensures ItemsFrom(items + [item], b) == ItemsFrom(items, b) + if item.origin == b then [item] else []
  {
    assert (items + [item])[..|items|] == items;
  }

  /** The items that stand for the first publications of adapter `b`. */
  function ItemsOf(b: nat, published: seq<Publish>): seq<Item> {
    if published == [] then [] else
      var n := |published| - 1;
      ItemsOf(b, published[..n]) + [Item(b, n, QueuedForm(published[n]))]
  }

  lemma {:induction false} ItemsFromMembers(items: seq<Item>, b: nat)
    ensures forall it :: it in ItemsFrom(items, b) <==> it in items && it.origin == b
    decreases |items|
  {
    if items != [] {
      var n := |items| - 1;
      ItemsFromMembers(items[..n], b);
      assert items == items[..n] + [items[n]];
    }
  }

  lemma {:induction false} ItemsOfMembers(b: nat, published: seq<Publish>)
    ensures |ItemsOf(b, published)| == |published|
    ensures forall k :: 0 <= k < |published| ==> ItemsOf(b, published)[k] == Item(b, k, QueuedForm(published[k]))
    decreases |published|
  {
    if published != [] { ItemsOfMembers(b, published[..|published| - 1]); }
  }

  // ----- Filters commute and keep order --------------------------------------------------------------

  lemma {:induction false} AdmittedCommutes(scopes: seq<Scope>, a: nat, items: seq<Item>, b: nat)
    requires a < |scopes|
    ensures ItemsFrom(Admitted(scopes, a, items), b) == Admitted(scopes, a, ItemsFrom(items, b))
    decreases |items|
  {
    if items != [] {
      var n := |items| - 1;
      AdmittedCommutes(scopes, a, items[..n], b);
      var admitted, mine := Admitted(scopes, a, items[..n]), ItemsFrom(items[..n], b);
      ItemsExtend(scopes, a, admitted, items[n], b);
      ItemsExtend(scopes, a, mine, items[n], b);
      assert admitted + [] == admitted && mine + [] == mine;
    }
  }

  ghost predicate IncreasingItems(items: seq<Item>) {
    forall x, y :: 0 <= x < y < |items| && items[x].origin == items[y].origin ==> items[x].index < items[y].index
  }

  lemma {:induction false} AdmittedSubset(scopes: seq<Scope>, a: nat, items: seq<Item>)
    requires a < |scopes| && IncreasingItems(items)
    ensures IncreasingItems(Admitted(scopes, a, items))
    ensures forall it :: it in Admitted(scopes, a, items) ==> it in items && AdmitsItem(scopes, a, it)
    decreases |items|
  {
    if items != [] {
      var n := |items| - 1;
      var init := Admitted(scopes, a, items[..n]);
      AdmittedSubset(scopes, a, items[..n]);
      forall x | 0 <= x < |init| && init[x].origin == items[n].origin ensures init[x].index < items[n].index {
        assert init[x] in items[..n];
        var y :| 0 <= y < n && items[..n][y] == init[x];
        assert items[y] == init[x];
      }
      assert items == items[..n] + [items[n]];
    }
  }

  lemma LastPushed(items: seq<Item>, b: nat, published: seq<Publish>)
    requires items != [] && items[|items| - 1].origin == b && ItemsFrom(items, b) == ItemsOf(b, published)
    ensures |published| > 0
    ensures items[|items| - 1] == Item(b, |published| - 1, QueuedForm(published[|published| - 1]))
    ensures ItemsFrom(items[..|items| - 1], b) == ItemsOf(b, published[..|published| - 1])
  {
    var mine := ItemsFrom(items[..|items| - 1], b);
    assert ItemsFrom(items, b) == mine + [items[|items| - 1]];
    assert published != [];
    var first := ItemsOf(b, published[..|published| - 1]);
    assert ItemsOf(b, published)[..|first|] == first && (mine + [items[|items| - 1]])[..|mine|] == mine;
  }

  /** When the items pushed by `b` are its publications in order, then wherever such an item is in
      the queue it carries the publication its index names, and indexes only grow. */
  lemma {:induction false} PushedShape(items: seq<Item>, b: nat, published: seq<Publish>)
    requires ItemsFrom(items, b) == ItemsOf(b, published)
    ensures forall x :: 0 <= x < |items| && items[x].origin == b ==>
              items[x].index < |published| && items[x] == Item(b, items[x].index, QueuedForm(published[items[x].index]))
    ensures forall x, y :: 0 <= x < y < |items| && items[x].origin == b && items[y].origin == b ==>
              items[x].index < items[y].index
    decreases |items|
  {
    if items != [] {
      var n := |items| - 1;
      var init := items[..n];
      if items[n].origin == b {
        LastPushed(items, b, published);
        PushedShape(init, b, published[..|published| - 1]);
      } else {
        PushedShape(init, b, published);
      }
      assert forall x :: 0 <= x < n ==> init[x] == items[x];
    }
  }
}
