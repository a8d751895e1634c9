/**
  The encoders and list parsers as the source runs them: buffers grown in place,
  flags set one by one, loops over lists. Each is proved equal to the
  description of the wire format in `Codec`.
 */
module Encoders {
  import opened Wire
  import opened VarInt
  import opened PropertyFields
  import PropertyCodec
  import opened Packets
  import opened Codec
  import CodecRoundTrip

  // ---------- list parsers ----------

  function PrependSubscriptions(head: seq<TopicSubscription>, r: Result<seq<TopicSubscription>>): Result<seq<TopicSubscription>> {
    if r.Err? then r else Ok(head + r.value)
  }

  method ParseSubscribe(body: Bytes, version: ProtocolVersion) returns (r: Result<Packet>)
    ensures r == SubscribeParsed(body, version)
  {
    hide SubscriptionAt, OptionalPropertiesAt, U16At;
    if |body| < 5 {
      return Err(UnexpectedEof);
    }
    var head :- U16At(body, 0);
    var block :- OptionalPropertiesAt(body, head.1, version);
    var cursor := block.1;
    var subscriptions: seq<TopicSubscription> := [];
    ghost var whole := SubscriptionsAt(body, cursor, version);
    assert whole.Ok? ==> [] + whole.value == whole.value;
    while cursor < |body|
      invariant cursor <= |body|
      invariant whole == PrependSubscriptions(subscriptions, SubscriptionsAt(body, cursor, version))
      decreases |body| - cursor
    {
      var item :- SubscriptionAt(body, cursor, version);
      ghost var tail := SubscriptionsAt(body, item.1, version);
      assert tail.Ok? ==> subscriptions + ([item.0] + tail.value) == subscriptions + [item.0] + tail.value;
      subscriptions, cursor := subscriptions + [item.0], item.1;
    }
    assert subscriptions + [] == subscriptions;
    return Ok(Subscribe(head.0, subscriptions));
  }

  function PrependTopics(head: seq<Text>, r: Result<seq<Text>>): Result<seq<Text>> {
    if r.Err? then r else Ok(head + r.value)
  }

  method ParseUnsubscribe(body: Bytes, version: ProtocolVersion) returns (r: Result<Packet>)
    ensures r == UnsubscribeParsed(body, version)
  {
    hide TextAt, OptionalPropertiesAt, U16At;
    if |body| < 4 {
      return Err(UnexpectedEof);
    }
    var head :- U16At(body, 0);
    var block :- OptionalPropertiesAt(body, head.1, version);
    var cursor := block.1;
    var topics: seq<Text> := [];
    ghost var whole := TopicsAt(body, cursor);
    assert whole.Ok? ==> [] + whole.value == whole.value;
    while cursor < |body|
      invariant cursor <= |body|
      invariant whole == PrependTopics(topics, TopicsAt(body, cursor))
      decreases |body| - cursor
    {
      var item :- TextAt(body, cursor);
      ghost var tail := TopicsAt(body, item.1);
      assert tail.Ok? ==> topics + ([item.0] + tail.value) == topics + [item.0] + tail.value;
      topics, cursor := topics + [item.0], item.1;
    }
    assert topics + [] == topics;
    return Ok(Unsubscribe(head.0, topics));
  }

  // ---------- encoders ----------

  method WriteFrame(first: Byte, body: Bytes) returns (buf: Bytes)
    ensures buf == Frame(first, body)
  {
    buf := [first];
    var length := EncodeRemainingLength(|body|);
    buf := buf + length;
    buf := buf + body;
  }

  method WriteProperties(out: Bytes, p: Properties, version: ProtocolVersion) returns (r: Result<Bytes>)
    ensures r == PropertyCodec.Prepend(out, OptionalPropertiesBytes(p, version))
  {
    hide PropertyCodec.EncodedProperties;
    if version.V5? {
      r := PropertyCodec.Encode(p, out);
    } else {
      assert out + [] == out;
      r := Ok(out);
    }
  }

  method ConnectStart(conn: ConnectPacket) returns (body: Bytes)
    ensures body == ConnectHeader(conn)
  {
    body := MQTT_NAME;
    body := body + [conn.version.Level()];
    var flags: nat := 0;
    if conn.cleanSession {
      flags := flags + 0x02;
    }
    if conn.will.Some? {
      flags := flags + 0x04;
      flags := flags + 8 * conn.will.value.qos.Level() as int;
      if conn.will.value.retain {
        flags := flags + 0x20;
      }
    }
    if conn.username.Some? {
      flags := flags + 0x80;
    }
    if conn.password.Some? {
      flags := flags + 0x40;
    }
    body := body + [flags];
    body := body + U16Bytes(conn.keepAlive);
  }

  method WriteWill(out: Bytes, will: Option<WillPacket>, version: ProtocolVersion) returns (r: Result<Bytes>)
    ensures r == PropertyCodec.Prepend(out, WillBytes(will, version))
  {
    hide OptionalPropertiesBytes, PrefixedTruncating;
    if will.None? {
      assert out + [] == out;
      return Ok(out);
    }
    var w := will.value;
    var body :- WriteProperties(out, w.properties, version);
    body := body + PrefixedTruncating(w.topic);
    body := body + PrefixedTruncating(w.payload);
    ghost var block := OptionalPropertiesBytes(w.properties, version).value;
    assert body == out + (block + (PrefixedTruncating(w.topic) + PrefixedTruncating(w.payload)));
    return Ok(body);
  }

  method EncodeConnect(conn: ConnectPacket) returns (r: Result<Bytes>)
    ensures r == PropertyCodec.Prepend([0x10], FrameTail(ConnectBody(conn)))
  {
    hide OptionalPropertiesBytes, PrefixedTruncating, ConnectHeader, WillBytes, VbiBytes;
    var body := ConnectStart(conn);
    body :- WriteProperties(body, conn.properties, conn.version);
    body := body + PrefixedTruncating(conn.clientId);
    body :- WriteWill(body, conn.will, conn.version);
    ghost var front := body;
    if conn.username.Some? {
      body := body + PrefixedTruncating(conn.username.value);
    }
    if conn.password.Some? {
      body := body + PrefixedTruncating(conn.password.value);
    }
    assert body == front + OptionalField(conn.username) + OptionalField(conn.password);
    ghost var block := OptionalPropertiesBytes(conn.properties, conn.version).value;
    ghost var will := WillBytes(conn.will, conn.version).value;
    Reassociate(ConnectHeader(conn), block, PrefixedTruncating(conn.clientId), will,
                OptionalField(conn.username), OptionalField(conn.password));
    var buf := WriteFrame(0x10, body);
    return Ok(buf);
  }

  /** Length prefix and body, if there is a body. */
  function FrameTail(body: Result<Bytes>): Result<Bytes> {
    if body.Err? then body else Ok(VbiBytes(|body.value|) + body.value)
  }

  lemma Reassociate(a: Bytes, b: Bytes, c: Bytes, d: Bytes, e: Bytes, f: Bytes)
    ensures a + b + c + d + e + f == a + (b + (c + (d + (e + f))))
  {
    assert a + b + c + d + e + f == a + b + c + (d + (e + f));
    assert a + b + c + (d + (e + f)) == a + (b + (c + (d + (e + f))));
  }

  method EncodeConnack(p: Packet, version: ProtocolVersion) returns (r: Result<Bytes>)
    requires p.Connack?
    ensures r == PacketBytes(p, version)
  {
    hide OptionalPropertiesBytes, ReturnCodeByte, VbiBytes;
    var present: Byte := if p.sessionPresent then 0x01 else 0x00;
    var code := ReturnCodeByte(p.returnCode, version);
    if version.V311? {
      ShortFrame(0x20, [present, code]);
      NoProperties(p.connackProperties);
      assert [present, code] + [] == [present, code];
      return Ok([0x20, 0x02, present, code]);
    }
    var body := [present, code];
    body :- WriteProperties(body, p.connackProperties, version);
    var buf := WriteFrame(0x20, body);
    return Ok(buf);
  }

  lemma ShortFrame(first: Byte, body: Bytes)
    requires |body| == 2
    ensures Frame(first, body) == [first, 0x02, body[0], body[1]]
  {
    assert body == [body[0], body[1]];
  }

  lemma EmptyFrame(first: Byte)
    ensures Frame(first, []) == [first, 0x00]
  {
  }

  lemma NoProperties(p: Properties)
    ensures OptionalPropertiesBytes(p, V311) == Ok([])
  {
  }

  method EncodePublish(p: PublishPacket, version: ProtocolVersion) returns (r: Result<Bytes>)
    ensures r == PacketBytes(Publish(p), version)
  {
    hide OptionalPropertiesBytes, VbiBytes;
    var body := U16Bytes(|p.topic| % 0x1_0000);
    body := body + p.topic;
    if !p.qos.AtMostOnce? && p.packetId.Some? {
      body := body + U16Bytes(p.packetId.value);
    }
    ghost var front := body;
    assert front == PrefixedTruncating(p.topic) + PublishIdBytes(p);
    body :- WriteProperties(body, p.properties, version);
    body := body + p.payload;
    ghost var block := OptionalPropertiesBytes(p.properties, version).value;
    assert body == PrefixedTruncating(p.topic) + (PublishIdBytes(p) + (block + p.payload));
    var flags := PackPublishFlags(p);
    var buf := WriteFrame(0x30 + flags as int, body);
    return Ok(buf);
  }

  method PackPublishFlags(p: PublishPacket) returns (flags: Byte)
    ensures flags == PublishFlags(p)
  {
    var f: nat := 0;
    if p.dup {
      f := f + 0x08;
    }
    if p.retain {
      f := f + 0x01;
    }
    f := f + 2 * p.qos.Level() as int;
    flags := f;
  }

  method EncodeSubscribe(id: U16, subs: seq<TopicSubscription>, version: ProtocolVersion) returns (r: Result<Bytes>)
    ensures r == PacketBytes(Subscribe(id, subs), version)
  {
    hide OptionalPropertiesBytes, PrefixedTruncating, VbiBytes, U16Bytes, SubscriptionsBytes;
    var body := U16Bytes(id);
    EmptyProperties(version);
    var withBlock := WriteProperties(body, DEFAULT, version);
    body := withBlock.value;  // the empty block is always writable
    ghost var start := body;
    for i := 0 to |subs|
      invariant start + SubscriptionsBytes(subs) == body + SubscriptionsBytes(subs[i..])
    {
      NextSubscription(body, subs, i);
      body := body + PrefixedTruncating(subs[i].topic);
      body := body + [subs[i].qos.Level()];
    }
    NoSubscription(subs);
    assert body == start + SubscriptionsBytes(subs);
    assert body == U16Bytes(id) + (EmptyBlock(version) + SubscriptionsBytes(subs));
    var buf := WriteFrame(0x82, body);
    return Ok(buf);
  }

  lemma NextSubscription(body: Bytes, subs: seq<TopicSubscription>, i: nat)
    requires i < |subs|
    ensures body + SubscriptionsBytes(subs[i..])
         == body + PrefixedTruncating(subs[i].topic) + [subs[i].qos.Level()] + SubscriptionsBytes(subs[i + 1..])
  {
    hide PrefixedTruncating;
    assert subs[i..][1..] == subs[i + 1..];
  }

  lemma NoSubscription(subs: seq<TopicSubscription>)
    ensures SubscriptionsBytes(subs[|subs|..]) == []
  {
  }

  lemma EmptyProperties(version: ProtocolVersion)
    ensures OptionalPropertiesBytes(DEFAULT, version) == Ok(EmptyBlock(version))
  {
    hide PropertyCodec.EncodedProperties;
    CodecRoundTrip.EmptyBlockEncodes();
  }

  method EncodeSuback(id: U16, codes: seq<SubackCode>, version: ProtocolVersion) returns (r: Result<Bytes>)
    ensures r == PacketBytes(Suback(id, codes), version)
  {
    hide OptionalPropertiesBytes, VbiBytes;
    var body := U16Bytes(id);
    EmptyProperties(version);
    var withBlock := WriteProperties(body, DEFAULT, version);
    body := withBlock.value;  // the empty block is always writable
    ghost var start := body;
    for i := 0 to |codes|
      invariant body == start + CodeBytes(codes)[..i]
    {
      body := body + [codes[i].Code()];
    }
    assert body == U16Bytes(id) + (EmptyBlock(version) + CodeBytes(codes));
    var buf := WriteFrame(0x90, body);
    return Ok(buf);
  }

  method EncodeUnsubscribe(id: U16, topics: seq<Text>, version: ProtocolVersion) returns (r: Result<Bytes>)
    ensures r == PacketBytes(Unsubscribe(id, topics), version)
  {
    hide OptionalPropertiesBytes, PrefixedTruncating, VbiBytes;
    var body := U16Bytes(id);
    EmptyProperties(version);
    var withBlock := WriteProperties(body, DEFAULT, version);
    body := withBlock.value;  // the empty block is always writable
    ghost var start := body;
    for i := 0 to |topics|
      invariant start + TopicsBytes(topics) == body + TopicsBytes(topics[i..])
    {
      ghost var before := body;
      assert topics[i..][1..] == topics[i + 1..];
      body := body + PrefixedTruncating(topics[i]);
      assert before + (PrefixedTruncating(topics[i]) + TopicsBytes(topics[i + 1..])) == body + TopicsBytes(topics[i + 1..]);
    }
    assert body == start + TopicsBytes(topics);
    assert body == U16Bytes(id) + (EmptyBlock(version) + TopicsBytes(topics));
    var buf := WriteFrame(0xA2, body);
    return Ok(buf);
  }

  method EncodeUnsuback(id: U16, codes: Bytes, version: ProtocolVersion) returns (buf: Bytes)
    ensures Ok(buf) == PacketBytes(Unsuback(id, codes), version)
  {
    hide VbiBytes;
    if version.V311? {
      ShortFrame(0xB0, U16Bytes(id));
      assert U16Bytes(id) + ([] + []) == U16Bytes(id);
      return [0xB0, 0x02, id / 0x100, id % 0x100];
    }
    var body := U16Bytes(id);
    body := body + [0x00];
    body := body + codes;
    assert body == U16Bytes(id) + ([0x00] + codes);
    buf := WriteFrame(0xB0, body);
  }

  method EncodePacket(packet: Packet, version: ProtocolVersion) returns (r: Result<Bytes>)
    ensures r == PacketBytes(packet, version)
  {
    hide OptionalPropertiesBytes, ConnectBody, PublishBody;
    match packet {
      case Connect(c) =>
        r := EncodeConnect(c);
      case Connack(_, _, _) =>
        r := EncodeConnack(packet, version);
      case Publish(p) =>
        r := EncodePublish(p, version);
      case Puback(id) =>
        ShortFrame(0x40, U16Bytes(id));
        r := Ok([0x40, 0x02, id / 0x100, id % 0x100]);
      case Pubrec(id) =>
        ShortFrame(0x50, U16Bytes(id));
        r := Ok([0x50, 0x02, id / 0x100, id % 0x100]);
      case Pubrel(id) =>
        ShortFrame(0x62, U16Bytes(id));
        r := Ok([0x62, 0x02, id / 0x100, id % 0x100]);
      case Pubcomp(id) =>
        ShortFrame(0x70, U16Bytes(id));
        r := Ok([0x70, 0x02, id / 0x100, id % 0x100]);
      case Subscribe(id, subs) =>
        r := EncodeSubscribe(id, subs, version);
      case Suback(id, codes) =>
        r := EncodeSuback(id, codes, version);
      case Unsubscribe(id, topics) =>
        r := EncodeUnsubscribe(id, topics, version);
      case Unsuback(id, codes) =>
        var buf := EncodeUnsuback(id, codes, version);
        r := Ok(buf);
      case Pingreq =>
        EmptyFrame(0xC0);
        r := Ok([0xC0, 0x00]);
      case Pingresp =>
        EmptyFrame(0xD0);
        r := Ok([0xD0, 0x00]);
      case Disconnect =>
        EmptyFrame(0xE0);
        r := Ok([0xE0, 0x00]);
    }
  }

  // ---------- the streaming PUBLISH writer ----------

  /** The header that is written before the payload, with its separately computed remaining length. */
  method PublishHeader(packet: PublishPacket, version: ProtocolVersion) returns (r: Result<Bytes>)
    ensures r.Ok? <==> PacketBytes(Publish(packet), version).Ok? && (packet.qos.AtMostOnce? || packet.packetId.Some?)
    ensures r.Ok? ==> r.value + packet.payload == PacketBytes(Publish(packet), version).value
    ensures r.Err? ==> r.error == if PacketBytes(Publish(packet), version).Err?
                                  then PacketBytes(Publish(packet), version).error
                                  else PayloadTooLong(0, Some(0))
  {
    hide OptionalPropertiesBytes, VbiBytes, PublishFlags, U16Bytes;
    var varHeaderLen := 2 + |packet.topic|;
    if !packet.qos.AtMostOnce? {
      varHeaderLen := varHeaderLen + 2;
    }
    var properties: Bytes :- WriteProperties([], packet.properties, version);
    varHeaderLen := varHeaderLen + |properties|;
    var bodyLen := varHeaderLen + |packet.payload|;
    var flags := PackPublishFlags(packet);
    var header: Bytes := [0x30 + flags as int];
    ghost var first := header;
    var length := EncodeRemainingLength(bodyLen);
    header := header + length;
    header := header + U16Bytes(|packet.topic| % 0x1_0000);
    header := header + packet.topic;
    ghost var topic, id := PrefixedTruncating(packet.topic), PublishIdBytes(packet);
    assert header == first + length + topic;
    if !packet.qos.AtMostOnce? {
      if packet.packetId.None? {
        return Err(PayloadTooLong(0, Some(0)));
      }
      header := header + U16Bytes(packet.packetId.value);
    }
    assert header == first + length + topic + id;
    header := header + properties;
    Reassociate(first, length, topic, id, properties, packet.payload);
    return Ok(header);
  }

  /** The asynchronous writer: everything written so far. */
  class PacketWriter {
    var out: Bytes

    constructor ()
      ensures out == []
    {
      out := [];
    }

    method WriteAll(bytes: Bytes)
      modifies this
      ensures out == old(out) + bytes
    {
      out := out + bytes;
    }

    /**
      The streaming writer writes byte for byte what the simple encoder returns,
      and nothing when it fails. The two succeed together except for one family:
      QoS above 0 without an identifier, which the simple encoder lets through.
     */
    method WritePublishPacket(packet: PublishPacket, version: ProtocolVersion) returns (r: Result<()>)
      modifies this
      ensures r.Ok? <==> PacketBytes(Publish(packet), version).Ok? && (packet.qos.AtMostOnce? || packet.packetId.Some?)
      ensures r.Ok? ==> out == old(out) + PacketBytes(Publish(packet), version).value
      ensures r.Err? ==> out == old(out)
      ensures r.Err? ==> r.error == if PacketBytes(Publish(packet), version).Err?
                                    then PacketBytes(Publish(packet), version).error
                                    else PayloadTooLong(0, Some(0))
    {
      hide PacketBytes;
      var header :- PublishHeader(packet, version);
      WriteAll(header);
      WriteAll(packet.payload);
      assert out == old(out) + (header + packet.payload);
      return Ok(());
    }
  }
}
