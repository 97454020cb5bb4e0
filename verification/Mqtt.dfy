/** The values that travel between handlers, the shared queue and the connections. */
module Mqtt {

  /** 0, 1 or 2; the bit pattern 3 is reserved by the protocol. */
  type QoS = q: nat | q <= 3
  type Byte = b: nat | b < 256

  datatype Version = V3 | V5

  /** The address of an endpoint object; it identifies the connection. */
  type Connection = nat

  type Properties = seq<(nat, string)>

  datatype PublishOptions = PublishOptions(dup: bool, qos: QoS, retain: bool)

  /** The first byte of a PUBLISH packet without its packet type, section 3.3.1 of MQTT 5.0. */
  function ToByte(o: PublishOptions): Byte {
    (if o.dup then 8 else 0) + 2 * o.qos + (if o.retain then 1 else 0)
  }

  function FromByte(b: Byte): PublishOptions {
    PublishOptions(b / 8 % 2 == 1, b / 2 % 4, b % 2 == 1)
  }

  /** Publish options survive the byte they are stored in while a message is queued. */
  lemma OptionsRoundTrip(o: PublishOptions)
    ensures FromByte(ToByte(o)) == o
  {
    var b := ToByte(o);
    assert b % 2 == if o.retain then 1 else 0;
    assert b / 2 == (if o.dup then 4 else 0) + o.qos;
  }

  /** Bit 3 is DUP, bits 2 and 1 are the quality of service, bit 0 is RETAIN; the packet type in
      the upper bits does not matter. */
  lemma BitPositions(o: PublishOptions, packetType: nat)
    requires packetType < 16
    ensures ToByte(o) == (if o.dup then 0x08 else 0) + 0x02 * o.qos + (if o.retain then 0x01 else 0)
    ensures FromByte(16 * packetType + ToByte(o)) == o
  {
    OptionsRoundTrip(o);
    var b := ToByte(o);
    assert (16 * packetType + b) / 8 == 2 * packetType + b / 8;
    assert (16 * packetType + b) / 2 == 8 * packetType + b / 2;
  }

  function MinQoS(a: QoS, b: QoS): QoS { if b < a then b else a }

  /** A PUBLISH packet as its handler receives it. */
  datatype Publish = Publish(con: Connection, version: Version, topic: string, contents: seq<char>,
                             options: PublishOptions, props: Properties)

  /** The queued form built by `share`. */
  datatype Message = Message(payload: seq<char>, topic: string, options: Byte, version: Version,
                             props: Properties)

  /** `rap`: keep the retain flag; `nl`: No Local. */
  datatype Subscription = Subscription(filter: string, con: Connection, qos: QoS, rap: bool, nl: bool)

  /** The constructor used by the MQTT v3 handler. */
  function V3Subscription(filter: string, con: Connection, qos: QoS): Subscription {
    Subscription(filter, con, qos, false, false)
  }

  /** One entry of a SUBSCRIBE packet; the v3 handler reads only the quality of service. */
  datatype Entry = Entry(filter: string, qos: QoS, rap: bool, nl: bool)

  function SubscriptionFor(version: Version, con: Connection, e: Entry): Subscription {
    if version == V3 then V3Subscription(e.filter, con, e.qos) else Subscription(e.filter, con, e.qos, e.rap, e.nl)
  }

  /** What a stored record owes to the entry that asked for it: under v5 all three options are the
      entry's own, under v3 only the quality of service is. */
  predicate AsAsked(version: Version, con: Connection, e: Entry, sub: Subscription) {
    && sub.con == con && sub.filter == e.filter && sub.qos == e.qos
    && (sub.rap <==> version == V5 && e.rap)
    && (sub.nl <==> version == V5 && e.nl)
  }

  lemma SubscriptionIsAsAsked(version: Version, con: Connection, e: Entry)
    ensures AsAsked(version, con, e, SubscriptionFor(version, con, e))
  {}

  /** One call of `publish` on a subscriber's connection. */
  datatype Delivery = Delivery(con: Connection, topic: string, contents: seq<char>, qos: QoS, retain: bool,
                               props: Properties)
}
