/** What a PUBLISH turns into for each subscription: the v3 handler, the v5 handler and the
    injection from another adapter. */
module Publications {
  import opened Mqtt
  import opened Subscriptions
  import opened Topics

  /** The v5 handler does not send a publication back through a No Local subscription of its
      own publisher. */
  predicate SkippedNoLocal(p: Publish, sub: Subscription) { p.version == V5 && sub.nl && sub.con == p.con }

  /** What the v3 publish handler sends for one subscription. */
  function V3Copies(p: Publish, sub: Subscription): seq<Delivery> {
    if !FilterMatches(sub.filter, p.topic) then []
    else [Delivery(sub.con, p.topic, p.contents, MinQoS(sub.qos, p.options.qos), false, [])]
  }

  /** What the v5 publish handler sends for one subscription. */
  function V5Copies(p: Publish, sub: Subscription): seq<Delivery> {
    if !FilterMatches(sub.filter, p.topic) then []
    else if sub.nl && sub.con == p.con then []
    else
      var retain := if sub.rap then p.options.retain else false;
      [Delivery(sub.con, p.topic, p.contents, MinQoS(sub.qos, p.options.qos), retain, p.props)]
  }

  /** The message that `share` puts in the queue; the v3 handler passes no properties. */
  function QueuedForm(p: Publish): Message {
    Message(p.contents, p.topic, ToByte(p.options), p.version, if p.version == V3 then [] else p.props)
  }

  /** What injecting a queued message sends for one subscription. */
  function InjectedCopies(m: Message, sub: Subscription): seq<Delivery> {
    var options := FromByte(m.options);
    if !FilterMatches(sub.filter, m.topic) then []
    else if m.version == V3 then
      [Delivery(sub.con, m.topic, m.payload, MinQoS(sub.qos, options.qos), false, [])]
    else
      var retain := if sub.rap then options.retain else false;
      [Delivery(sub.con, m.topic, m.payload, MinQoS(sub.qos, options.qos), retain, m.props)]
  }

  datatype Source = FromHandler(publish: Publish) | FromQueue(message: Message)

  function Copies(src: Source, sub: Subscription): seq<Delivery> {
    match src
    case FromHandler(p) => if p.version == V3 then V3Copies(p, sub) else V5Copies(p, sub)
    case FromQueue(m) => InjectedCopies(m, sub)
  }

  /** The deliveries of one loop over the topic index. */
  function Fanout(src: Source, subs: seq<Subscription>): seq<Delivery> {
    if subs == [] then [] else Fanout(src, subs[..|subs| - 1]) + Copies(src, subs[|subs| - 1])
  }

  // ----- Exactly once per matching subscription --------------------------------------------

  function TopicOf(src: Source): string {
    match src case FromHandler(p) => p.topic case FromQueue(m) => m.topic
  }

  function ContentsOf(src: Source): seq<char> {
    match src case FromHandler(p) => p.contents case FromQueue(m) => m.payload
  }

  function QoSOf(src: Source): QoS {
    match src case FromHandler(p) => p.options.qos case FromQueue(m) => FromByte(m.options).qos
  }

  /** The subscriptions that a publication or a queued message is for. */
  ghost predicate Addressed(src: Source, s: Subscription) {
    && FilterMatches(s.filter, TopicOf(src))
    && !(src.FromHandler? && src.publish.version == V5 && s.nl && s.con == src.publish.con)
  }

  /** The delivery a subscription should get: on its own connection, the published topic and
      contents, and the lower of the two qualities of service. */
  ghost predicate Reaches(src: Source, d: Delivery, sub: Subscription) {
    && d.con == sub.con && d.topic == TopicOf(src) && d.contents == ContentsOf(src)
    && d.qos <= sub.qos && d.qos <= QoSOf(src) && (d.qos == sub.qos || d.qos == QoSOf(src))
  }

  lemma CopiesShape(src: Source, sub: Subscription)
    ensures |Copies(src, sub)| == if Addressed(src, sub) then 1 else 0
    ensures forall k :: 0 <= k < |Copies(src, sub)| ==> Reaches(src, Copies(src, sub)[k], sub)
  {}

  /** `picks` lists, in increasing order, exactly the positions of `subs` that are addressed. */
  ghost predicate Picks(src: Source, subs: seq<Subscription>, picks: seq<nat>) {
    && (forall k :: 0 <= k < |picks| ==> picks[k] < |subs| && Addressed(src, subs[picks[k]]))
    && (forall k, l :: 0 <= k < l < |picks| ==> picks[k] < picks[l])
    && (forall i :: 0 <= i < |subs| && Addressed(src, subs[i]) ==> i in picks)
  }

  lemma PicksExtend(src: Source, subs: seq<Subscription>, picks: seq<nat>)
    requires subs != [] && Picks(src, subs[..|subs| - 1], picks)
    ensures Addressed(src, subs[|subs| - 1]) ==> Picks(src, subs, picks + [|subs| - 1])
    ensures !Addressed(src, subs[|subs| - 1]) ==> Picks(src, subs, picks)
  {
    var n := |subs| - 1;
    assert forall i :: 0 <= i < n ==> subs[..n][i] == subs[i];
    forall i | 0 <= i < n && Addressed(src, subs[i]) ensures i in picks {
      assert Addressed(src, subs[..n][i]);
    }
  }

  ghost predicate AllReached(src: Source, subs: seq<Subscription>, picks: seq<nat>, out: seq<Delivery>) {
    && |out| == |picks|
    && forall k :: 0 <= k < |picks| ==> picks[k] < |subs| && Reaches(src, out[k], subs[picks[k]])
  }

  /** Each of the three loops sends exactly one delivery for each subscription it is for, in
      topic-index order, at the lower of the two qualities of service. */
  lemma {:induction false} FanoutExactlyOnce(src: Source, subs: seq<Subscription>) returns (picks: seq<nat>)
    ensures Picks(src, subs, picks)
    ensures AllReached(src, subs, picks, Fanout(src, subs))
    decreases |subs|
  {
    picks := [];
    if subs != [] {
      var n := |subs| - 1;
      var before := FanoutExactlyOnce(src, subs[..n]);
      PicksExtend(src, subs, before);
      CopiesShape(src, subs[n]);
      if Addressed(src, subs[n]) {
        picks := before + [n];
      } else {
        picks := before;
      }
    }
  }

  /** Over a topic index the deliveries come in the lexicographic order of the filters they went
      through. */
  lemma FanoutInFilterOrder(src: Source, subs: seq<Subscription>) returns (picks: seq<nat>)
    requires FiltersAscend(subs)
    ensures Picks(src, subs, picks) && AllReached(src, subs, picks, Fanout(src, subs))
    ensures forall k, l :: 0 <= k < l < |picks| ==>
              var f, g := subs[picks[k]].filter, subs[picks[l]].filter; f == g || Precedes(f, g)
  {
    picks := FanoutExactlyOnce(src, subs);
  }

  // ----- The three loops compared --------------------------------------------------------------

  /** The subscriptions left when the publisher's own No Local ones are skipped. */
  function Unskipped(p: Publish, subs: seq<Subscription>): seq<Subscription> {
    if subs == [] then [] else
      var init := Unskipped(p, subs[..|subs| - 1]);
      if SkippedNoLocal(p, subs[|subs| - 1]) then init else init + [subs[|subs| - 1]]
  }

  lemma SameCopies(p: Publish, sub: Subscription)
    ensures Copies(FromHandler(p), sub)
            == if SkippedNoLocal(p, sub) then [] else Copies(FromQueue(QueuedForm(p)), sub)
  {
    OptionsRoundTrip(p.options);
  }

  /** For the same subscriptions a publication delivered by its own adapter and the same
      publication taken through the queue differ only by the No Local skip. */
  lemma {:induction false} RemoteEqualsLocal(p: Publish, subs: seq<Subscription>)
    ensures Fanout(FromHandler(p), subs) == Fanout(FromQueue(QueuedForm(p)), Unskipped(p, subs))
    decreases |subs|
  {
    if subs != [] {
      var n := |subs| - 1;
      RemoteEqualsLocal(p, subs[..n]);
      SameCopies(p, subs[n]);
      var init := Unskipped(p, subs[..n]);
      if !SkippedNoLocal(p, subs[n]) {
        assert (init + [subs[n]])[..|init|] == init;
      }
    }
  }

  function WithoutProps(ds: seq<Delivery>): seq<Delivery> {
    if ds == [] then [] else WithoutProps(ds[..|ds| - 1]) + [ds[|ds| - 1].(props := [])]
  }

  /** On subscriptions made through the v3 constructor the two handlers agree apart from the
      properties. */
  lemma {:induction false} VersionsAgree(p: Publish, subs: seq<Subscription>)
    requires forall i :: 0 <= i < |subs| ==>
               subs[i] == V3Subscription(subs[i].filter, subs[i].con, subs[i].qos)
    ensures WithoutProps(Fanout(FromHandler(p.(version := V5)), subs))
            == Fanout(FromHandler(p.(version := V3)), subs)
    decreases |subs|
  {
    if subs != [] {
      var n := |subs| - 1;
      VersionsAgree(p, subs[..n]);
      var p5 := p.(version := V5);
      var init, copies := Fanout(FromHandler(p5), subs[..n]), Copies(FromHandler(p5), subs[n]);
      assert subs[n] == V3Subscription(subs[n].filter, subs[n].con, subs[n].qos);
      if copies == [] {
        assert init + copies == init;
      } else {
        assert (init + copies)[..|init|] == init;
      }
    }
  }
}
