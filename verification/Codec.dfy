/**
  The packet codec. `BodyParsed` is what decoding a packet body yields and
  `BodyBytes` what encoding a packet writes after the fixed header. The loops and
  the buffer-building encoders of module `Encoders` are proved equal to these.
 */
module Codec {
  import opened Wire
  import opened VarInt
  import opened PropertyFields
  import opened PropertyCodec
  import opened Packets

  /** Bit `mask` of a flags byte; `mask` is a power of two. */
  predicate Bit(flags: Byte, mask: Byte)
    requires mask > 0
  {
    flags as int / mask % 2 == 1
  }

  // ---------- decoding ----------

  /** The property block of a version 5 packet; version 3.1.1 has none. */
  function OptionalPropertiesAt(body: Bytes, c: nat, version: ProtocolVersion): (r: Result<(Properties, nat)>)
    ensures r.Ok? && c <= |body| ==> c <= r.value.1 <= |body|
  {
    if version.V5? then PropertiesAt(body, c) else Ok((DEFAULT, c))
  }

  function WillAt(body: Bytes, c: nat, version: ProtocolVersion, flags: Byte): Result<(Option<WillPacket>, nat)> {
    if !Bit(flags, 0x04) then Ok((None, c))
    else
      var (properties, c) :- OptionalPropertiesAt(body, c, version);
      var (topic, c) :- TextAt(body, c);
      var (payload, c) :- PrefixedAt(body, c);
      var bits: Byte := flags as int / 8 % 4;
      if QosOf(bits).None? then Err(QosInvalid(bits))
      else Ok((Some(WillPacket(properties, topic, payload, QosOf(bits).value, Bit(flags, 0x20))), c))
  }

  function UsernameAt(body: Bytes, c: nat, flags: Byte): Result<(Option<Text>, nat)> {
    if !Bit(flags, 0x80) then Ok((None, c))
    else var (s, c) :- TextAt(body, c); Ok((Some(s), c))
  }

  function PasswordAt(body: Bytes, c: nat, flags: Byte): Result<(Option<Bytes>, nat)> {
    if !Bit(flags, 0x40) then Ok((None, c))
    else var (s, c) :- PrefixedAt(body, c); Ok((Some(s), c))
  }

  const MQTT_NAME: Bytes := [0x00, 0x04, 0x4D, 0x51, 0x54, 0x54]

  function ConnectParsed(body: Bytes): Result<Packet> {
    if |body| < 10 then Err(UnexpectedEof)
    else if body[..6] != MQTT_NAME then Err(InvalidProtocolName)
    else if body[6] != 4 && body[6] != 5 then Err(UnsupportedProtocolLevel(body[6]))
    else
      var version := if body[6] == 4 then V311 else V5;
      var flags := body[7];
      var (keepAlive, c) :- U16At(body, 8);
      var (properties, c) :- OptionalPropertiesAt(body, c, version);
      var (clientId, c) :- TextAt(body, c);
      var (will, c) :- WillAt(body, c, version, flags);
      var (username, c) :- UsernameAt(body, c, flags);
      var (password, _) :- PasswordAt(body, c, flags);
      Ok(Connect(ConnectPacket(version, properties, clientId, Bit(flags, 0x02), keepAlive, username, password, will)))
  }

  function ConnackParsed(body: Bytes, version: ProtocolVersion): Result<Packet> {
    if |body| < 2 then Err(UnexpectedEof)
    else if ReturnCodeOf(body[1], version).None? then Err(InvalidPacketType(body[1]))
    else
      var (properties, c) :- OptionalPropertiesAt(body, 2, version);
      if c != |body| then Err(PayloadTooLong(|body| - c, Some(0)))
      else Ok(Connack(properties, Bit(body[0], 0x01), ReturnCodeOf(body[1], version).value))
  }

  function PublishIdAt(body: Bytes, c: nat, qos: QoS): Result<(Option<U16>, nat)> {
    if qos.AtMostOnce? then Ok((None, c))
    else var (id, c) :- U16At(body, c); Ok((Some(id), c))
  }

  function PublishParsed(first: Byte, body: Bytes, version: ProtocolVersion): Result<Packet> {
    if |body| < 2 then Err(UnexpectedEof)
    else
      var bits: Byte := first as int / 2 % 4;
      if QosOf(bits).None? then Err(QosInvalid(bits))
      else
        var qos := QosOf(bits).value;
        var (topic, c) :- TextAt(body, 0);
        var (packetId, c) :- PublishIdAt(body, c, qos);
        var (properties, c) :- OptionalPropertiesAt(body, c, version);
        Ok(Publish(PublishPacket(properties, topic, body[c..], Bit(first, 0x08), qos, Bit(first, 0x01), packetId)))
  }

  /** The version 5 tail of an acknowledgement or DISCONNECT: a reason code, then perhaps properties, then nothing. */
  function ReasonTail(body: Bytes, c: nat): Result<()>
    requires c <= |body|
  {
    if c == |body| then Ok(())
    else
      var (_, c) :- if c + 1 < |body| then PropertiesAt(body, c + 1) else Ok((DEFAULT, c + 1));
      if c != |body| then Err(PayloadTooLong(|body| - c, Some(0))) else Ok(())
  }

  function AckIdParsed(first: Byte, expected: Byte, body: Bytes, version: ProtocolVersion): Result<U16> {
    if |body| < 2 || (version.V311? && |body| != 2) then
      Err(PayloadTooLong(|body|, if version.V311? then Some(2) else None))
    else if first as int % 16 != expected then Err(ReservedFlagSet)
    else
      var (id, c) :- U16At(body, 0);
      var _ :- ReasonTail(body, c);
      Ok(id)
  }

  predicate SubscribeOptionsOk(options: Byte, version: ProtocolVersion) {
    if version.V311? then options <= 2
    else options < 0x40 && options as int / 16 % 4 != 3
  }

  function SubscriptionAt(body: Bytes, c: nat, version: ProtocolVersion): (r: Result<(TopicSubscription, nat)>)
    ensures r.Ok? ==> c < r.value.1 <= |body|
  {
    var (topic, c) :- TextAt(body, c);
    if c >= |body| then Err(UnexpectedEof)
    else
      var options := body[c];
      var bits: Byte := options as int % 4;
      if !SubscribeOptionsOk(options, version) then Err(ReservedFlagSet)
      else if QosOf(bits).None? then Err(QosInvalid(bits))
      else Ok((TopicSubscription(topic, QosOf(bits).value), c + 1))
  }

  function SubscriptionsAt(body: Bytes, c: nat, version: ProtocolVersion): Result<seq<TopicSubscription>>
    decreases |body| - c
  {
    if c >= |body| then Ok([])
    else
      var (s, c') :- SubscriptionAt(body, c, version);
      var tail :- SubscriptionsAt(body, c', version);
      Ok([s] + tail)
  }

  function SubscribeParsed(body: Bytes, version: ProtocolVersion): Result<Packet> {
    if |body| < 5 then Err(UnexpectedEof)
    else
      var (id, c) :- U16At(body, 0);
      var (_, c) :- OptionalPropertiesAt(body, c, version);
      var subscriptions :- SubscriptionsAt(body, c, version);
      Ok(Subscribe(id, subscriptions))
  }

  function SubackCodeOf(b: Byte, version: ProtocolVersion): Result<SubackCode> {
    if b < 3 then Ok(Granted(QosOf(b).value))
    else if b == 0x80 || (version.V5? && b > 0x80) then Ok(Failure)
    else Err(InvalidPacketType(b))
  }

  function SubackCodes(codes: Bytes, version: ProtocolVersion): Result<seq<SubackCode>> {
    if codes == [] then Ok([])
    else
      var head :- SubackCodeOf(codes[0], version);
      var tail :- SubackCodes(codes[1..], version);
      Ok([head] + tail)
  }

  function SubackParsed(body: Bytes, version: ProtocolVersion): Result<Packet> {
    if |body| < 3 then Err(UnexpectedEof)
    else
      var (id, c) :- U16At(body, 0);
      var (_, c) :- OptionalPropertiesAt(body, c, version);
      var codes :- SubackCodes(body[c..], version);
      Ok(Suback(id, codes))
  }

  function TopicsAt(body: Bytes, c: nat): Result<seq<Text>>
    decreases |body| - c
  {
    if c >= |body| then Ok([])
    else
      var (topic, c') :- TextAt(body, c);
      var tail :- TopicsAt(body, c');
      Ok([topic] + tail)
  }

  function UnsubscribeParsed(body: Bytes, version: ProtocolVersion): Result<Packet> {
    if |body| < 4 then Err(UnexpectedEof)
    else
      var (id, c) :- U16At(body, 0);
      var (_, c) :- OptionalPropertiesAt(body, c, version);
      var topics :- TopicsAt(body, c);
      Ok(Unsubscribe(id, topics))
  }

  function UnsubackParsed(body: Bytes, version: ProtocolVersion): Result<Packet> {
    if |body| < 2 || (version.V311? && |body| != 2) then
      Err(PayloadTooLong(|body|, if version.V311? then Some(2) else None))
    else
      var (id, c) :- U16At(body, 0);
      var (_, c) :- OptionalPropertiesAt(body, c, version);
      Ok(Unsuback(id, body[c..]))
  }

  function Empty(body: Bytes, packet: Packet): Result<Packet> {
    if body != [] then Err(PayloadTooLong(|body|, Some(0))) else Ok(packet)
  }

  /** `parse_packet`; the packet type is the upper half of `first`, and `remaining` is the length of `body`. */
  function BodyParsed(first: Byte, body: Bytes, version: ProtocolVersion): Result<Packet>
    requires 1 <= first / 16 <= 14
  {
    match first / 16
    case 1 => ConnectParsed(body)
    case 2 => ConnackParsed(body, version)
    case 3 => PublishParsed(first, body, version)
    case 4 => var id :- AckIdParsed(first, 0, body, version); Ok(Puback(id))
    case 5 => var id :- AckIdParsed(first, 0, body, version); Ok(Pubrec(id))
    case 6 => var id :- AckIdParsed(first, 2, body, version); Ok(Pubrel(id))
    case 7 => var id :- AckIdParsed(first, 0, body, version); Ok(Pubcomp(id))
    case 8 => SubscribeParsed(body, version)
    case 9 => SubackParsed(body, version)
    case 10 => UnsubscribeParsed(body, version)
    case 11 => UnsubackParsed(body, version)
    case 12 => Empty(body, Pingreq)
    case 13 => Empty(body, Pingresp)
    case _ =>
      if version.V311? then Empty(body, Disconnect)
      else var _ :- ReasonTail(body, 0); Ok(Disconnect)
  }

  // ---------- encoding ----------

  function OptionalPropertiesBytes(p: Properties, version: ProtocolVersion): Result<Bytes> {
    if version.V5? then EncodedProperties(p) else Ok([])
  }

  function ConnectFlags(p: ConnectPacket): Byte {
    (if p.cleanSession then 0x02 else 0)
    + (match p.will
       case None => 0
       case Some(w) => 0x04 + 8 * w.qos.Level() as int + (if w.retain then 0x20 else 0))
    + (if p.password.Some? then 0x40 else 0)
    + (if p.username.Some? then 0x80 else 0)
  }

  function WillBytes(will: Option<WillPacket>, version: ProtocolVersion): Result<Bytes> {
    match will
    case None => Ok([])
    case Some(w) =>
      var properties :- OptionalPropertiesBytes(w.properties, version);
      Ok(properties + (PrefixedTruncating(w.topic) + PrefixedTruncating(w.payload)))
  }

  function OptionalField(s: Option<Bytes>): Bytes {
    match s
    case None => []
    case Some(b) => PrefixedTruncating(b)
  }

  function ConnectHeader(p: ConnectPacket): (r: Bytes)
    ensures |r| == 10
  {
    MQTT_NAME + ([p.version.Level(), ConnectFlags(p)] + U16Bytes(p.keepAlive))
  }

  function ConnectBody(p: ConnectPacket): Result<Bytes> {
    var properties :- OptionalPropertiesBytes(p.properties, p.version);
    var will :- WillBytes(p.will, p.version);
    Ok(ConnectHeader(p) + (properties + (PrefixedTruncating(p.clientId)
       + (will + (OptionalField(p.username) + OptionalField(p.password))))))
  }

  function PublishFlags(p: PublishPacket): (flags: Byte)
    ensures flags < 16
  {
    (if p.retain then 0x01 else 0) + 2 * p.qos.Level() as int + (if p.dup then 0x08 else 0)
  }

  function PublishIdBytes(p: PublishPacket): Bytes {
    if !p.qos.AtMostOnce? && p.packetId.Some? then U16Bytes(p.packetId.value) else []
  }

  function PublishBody(p: PublishPacket, version: ProtocolVersion): Result<Bytes> {
    var properties :- OptionalPropertiesBytes(p.properties, version);
    Ok(PrefixedTruncating(p.topic) + (PublishIdBytes(p) + (properties + p.payload)))
  }

  function SubscriptionsBytes(subs: seq<TopicSubscription>): Bytes {
    if subs == [] then []
    else PrefixedTruncating(subs[0].topic) + ([subs[0].qos.Level()] + SubscriptionsBytes(subs[1..]))
  }

  function TopicsBytes(topics: seq<Text>): Bytes {
    if topics == [] then [] else PrefixedTruncating(topics[0]) + TopicsBytes(topics[1..])
  }

  function CodeBytes(codes: seq<SubackCode>): Bytes {
    seq(|codes|, i requires 0 <= i < |codes| => codes[i].Code())
  }

  /** SUBSCRIBE, SUBACK, UNSUBSCRIBE and UNSUBACK are written with an empty property block. */
  function EmptyBlock(version: ProtocolVersion): Bytes {
    if version.V5? then [0x00] else []
  }

  /** What stands after the fixed header. */
  function BodyBytes(p: Packet, version: ProtocolVersion): Result<Bytes> {
    match p
    case Connect(c) => ConnectBody(c)
    case Connack(properties, present, code) =>
      var block :- OptionalPropertiesBytes(properties, version);
      Ok([if present then 0x01 else 0x00, ReturnCodeByte(code, version)] + block)
    case Publish(p) => PublishBody(p, version)
    case Puback(id) => Ok(U16Bytes(id))
    case Pubrec(id) => Ok(U16Bytes(id))
    case Pubrel(id) => Ok(U16Bytes(id))
    case Pubcomp(id) => Ok(U16Bytes(id))
    case Subscribe(id, subs) => Ok(U16Bytes(id) + (EmptyBlock(version) + SubscriptionsBytes(subs)))
    case Suback(id, codes) => Ok(U16Bytes(id) + (EmptyBlock(version) + CodeBytes(codes)))
    case Unsubscribe(id, topics) => Ok(U16Bytes(id) + (EmptyBlock(version) + TopicsBytes(topics)))
    case Unsuback(id, codes) => Ok(U16Bytes(id) + (EmptyBlock(version) + if version.V5? then codes else []))
    case Pingreq => Ok([])
    case Pingresp => Ok([])
    case Disconnect => Ok([])
  }

  function FirstByte(p: Packet): (b: Byte)
    ensures 1 <= b / 16 <= 14
  {
    match p
    case Connect(_) => 0x10
    case Connack(_, _, _) => 0x20
    case Publish(p) => 0x30 + PublishFlags(p) as int
    case Puback(_) => 0x40
    case Pubrec(_) => 0x50
    case Pubrel(_) => 0x62
    case Pubcomp(_) => 0x70
    case Subscribe(_, _) => 0x82
    case Suback(_, _) => 0x90
    case Unsubscribe(_, _) => 0xA2
    case Unsuback(_, _) => 0xB0
    case Pingreq => 0xC0
    case Pingresp => 0xD0
    case Disconnect => 0xE0
  }

  function Frame(first: Byte, body: Bytes): Bytes {
    [first] + (VbiBytes(|body|) + body)
  }

  /** What encoding a packet yields. */
  function PacketBytes(p: Packet, version: ProtocolVersion): Result<Bytes> {
    var body :- BodyBytes(p, version);
    Ok(Frame(FirstByte(p), body))
  }
}
