/**
  The packets as section 3 of MQTT 3.1.1 and MQTT 5.0 lays them out: the bytes
  that a packet is written as, and exactly which bodies are accepted.
 */
module PacketStandard {
  import opened Wire
  import opened VarInt
  import opened PropertyFields
  import opened PropertyCodec
  import opened Packets
  import opened Codec
  import opened CodecRoundTrip
  import opened Standard
  import opened PropertyStandard

  // ---------- how a packet is written ----------

  function Number(q: QoS): Byte {
    match q
    case AtMostOnce => 0
    case AtLeastOnce => 1
    case ExactlyOnce => 2
  }

  function Flag(b: bool): Byte {
    if b then 1 else 0
  }

  function Block(p: Properties, version: ProtocolVersion): Bytes {
    if version.V311? then []
    else if |Spelled(p)| <= 268_435_455 then Varint(|Spelled(p)|) + Spelled(p) else []
  }

  function NoBlock(version: ProtocolVersion): Bytes {
    if version.V311? then [] else [0x00]
  }

  function Optional(o: Option<Bytes>): Bytes {
    if o.None? then [] else Spelt(o.value)
  }

  function WillFlags(w: Option<WillPacket>): (r: nat)
    ensures r <= 60
  {
    if w.None? then 0 else 4 + 8 * Number(w.value.qos) as int + 32 * Flag(w.value.retain) as int
  }

  function ConnectFlagsStandard(c: ConnectPacket): Byte {
    2 * Flag(c.cleanSession) as int + WillFlags(c.will) + 64 * Flag(c.password.Some?) as int
    + 128 * Flag(c.username.Some?) as int
  }

  function WillStandard(will: Option<WillPacket>, version: ProtocolVersion): Bytes {
    if will.None? then []
    else Block(will.value.properties, version) + Spelt(will.value.topic) + Spelt(will.value.payload)
  }

  function ConnectStandard(c: ConnectPacket): Bytes {
    [0x00, 0x04, 0x4D, 0x51, 0x54, 0x54, if c.version.V311? then 4 else 5, ConnectFlagsStandard(c)] + Big16(c.keepAlive)
    + Block(c.properties, c.version) + Spelt(c.clientId) + WillStandard(c.will, c.version)
    + Optional(c.username) + Optional(c.password)
  }

  function CodeNumber(code: ReturnCode, version: ProtocolVersion): Byte {
    match (code, version)
    case (Accepted, _) => 0x00
    case (UnacceptableProtocolVersion, V311) => 0x01
    case (IdentifierRejected, V311) => 0x02
    case (ServerUnavailable, V311) => 0x03
    case (BadUsernameOrPassword, V311) => 0x04
    case (NotAuthorized, V311) => 0x05
    case (UnacceptableProtocolVersion, V5) => 0x84
    case (IdentifierRejected, V5) => 0x85
    case (BadUsernameOrPassword, V5) => 0x86
    case (NotAuthorized, V5) => 0x87
    case (ServerUnavailable, V5) => 0x88
  }

  function Entries(subs: seq<TopicSubscription>): Bytes {
    if subs == [] then [] else Spelt(subs[0].topic) + [Number(subs[0].qos)] + Entries(subs[1..])
  }

  function Names(topics: seq<Text>): Bytes {
    if topics == [] then [] else Spelt(topics[0]) + Names(topics[1..])
  }

  function CodeNumbers(codes: seq<SubackCode>): Bytes {
    seq(|codes|, i requires 0 <= i < |codes| => if codes[i].Granted? then Number(codes[i].qos) else 0x80)
  }

  function BodyStandard(p: Packet, version: ProtocolVersion): Bytes {
    match p
    case Connect(c) => ConnectStandard(c)
    case Connack(properties, present, code) => [Flag(present), CodeNumber(code, version)] + Block(properties, version)
    case Publish(m) =>
      Spelt(m.topic) + (if m.packetId.Some? then Big16(m.packetId.value) else []) + Block(m.properties, version) + m.payload
    case Puback(id) => Big16(id)
    case Pubrec(id) => Big16(id)
    case Pubrel(id) => Big16(id)
    case Pubcomp(id) => Big16(id)
    case Subscribe(id, subs) => Big16(id) + NoBlock(version) + Entries(subs)
    case Suback(id, codes) => Big16(id) + NoBlock(version) + CodeNumbers(codes)
    case Unsubscribe(id, topics) => Big16(id) + NoBlock(version) + Names(topics)
    case Unsuback(id, codes) => Big16(id) + NoBlock(version) + if version.V5? then codes else []
    case Pingreq => []
    case Pingresp => []
    case Disconnect => []
  }

  /** The packet type and its flags. */
  function FirstStandard(p: Packet): Byte {
    match p
    case Connect(_) => 0x10
    case Connack(_, _, _) => 0x20
    case Publish(m) => 0x30 + 8 * Flag(m.dup) as int + 2 * Number(m.qos) as int + Flag(m.retain) as int
    case Puback(_) => 0x40
    case Pubrec(_) => 0x50
    case Pubrel(_) => 0x62
    case Pubcomp(_) => 0x70
    case Subscribe(_, _) => 0x82
    case Suback(_, _) => 0x90
    case Unsubscribe(_, _) => 0xA2
    case Unsuback(_, _) => 0xB0
    case Pingreq => 0xC0
    case Pingresp => 0xD0
    case Disconnect => 0xE0
  }

  lemma NumberIs(q: QoS)
    ensures q.Level() == Number(q)
  {
  }

  lemma PrefixIs(s: Bytes)
    requires Short(s)
    ensures PrefixedTruncating(s) == Spelt(s)
  {
    NumbersAreStandard(0, 0, s);
  }

  lemma OptionIs(o: Option<Bytes>)
    requires ShortOption(o)
    ensures OptionalField(o) == Optional(o)
  {
    hide PrefixedTruncating, Spelt;
    if o.Some? {
      PrefixIs(o.value);
    }
  }

  lemma BlockIs(p: Properties, version: ProtocolVersion)
    requires OptionalPropertiesBytes(p, version).Ok?
    ensures OptionalPropertiesBytes(p, version).value == Block(p, version)
  {
    hide EncodedProperties, Spelled, Varint, ValuesOk, AllFit;
    if version.V5? {
      EncodesExactly(p);
    }
  }

  lemma {:induction false} EntriesAre(subs: seq<TopicSubscription>)
    requires forall i | 0 <= i < |subs| :: Short(subs[i].topic)
    ensures SubscriptionsBytes(subs) == Entries(subs)
  {
    hide PrefixedTruncating, Spelt;
    if subs != [] {
      PrefixIs(subs[0].topic);
      NumberIs(subs[0].qos);
      EntriesAre(subs[1..]);
      assert Spelt(subs[0].topic) + ([Number(subs[0].qos)] + Entries(subs[1..]))
          == Spelt(subs[0].topic) + [Number(subs[0].qos)] + Entries(subs[1..]);
    }
  }

  lemma {:induction false} NamesAre(topics: seq<Text>)
    requires forall i | 0 <= i < |topics| :: Short(topics[i])
    ensures TopicsBytes(topics) == Names(topics)
  {
    hide PrefixedTruncating, Spelt;
    if topics != [] {
      PrefixIs(topics[0]);
      NamesAre(topics[1..]);
    }
  }

  lemma WillIs(will: Option<WillPacket>, version: ProtocolVersion)
    requires will.Some? ==> Short(will.value.topic) && Short(will.value.payload)
    requires WillBytes(will, version).Ok?
    ensures WillBytes(will, version).value == WillStandard(will, version)
  {
    hide OptionalPropertiesBytes, PrefixedTruncating, Spelt, Block;
    if will.Some? {
      var w := will.value;
      BlockIs(w.properties, version);
      PrefixIs(w.topic);
      PrefixIs(w.payload);
      assert Block(w.properties, version) + (Spelt(w.topic) + Spelt(w.payload))
          == Block(w.properties, version) + Spelt(w.topic) + Spelt(w.payload);
    }
  }

  lemma HeaderIs(c: ConnectPacket)
    ensures ConnectHeader(c)
         == [0x00, 0x04, 0x4D, 0x51, 0x54, 0x54, if c.version.V311? then 4 else 5, ConnectFlagsStandard(c)] + Big16(c.keepAlive)
  {
    hide ConnectFlags, U16Bytes;
    NumbersAreStandard(c.keepAlive, 0, []);
    CodecRoundTrip.FlagsAre(c);
    if c.will.Some? {
      NumberIs(c.will.value.qos);
    }
  }

  lemma ConnectIs(c: ConnectPacket)
    requires FieldsFit(Connect(c)) && ConnectBody(c).Ok?
    ensures ConnectBody(c).value == ConnectStandard(c)
  {
    hide ConnectHeader, OptionalPropertiesBytes, WillBytes, OptionalField, PrefixedTruncating, Spelt, Block, Optional,
         WillStandard, ConnectFlagsStandard, Big16;
    HeaderIs(c);
    BlockIs(c.properties, c.version);
    PrefixIs(c.clientId);
    WillIs(c.will, c.version);
    OptionIs(c.username);
    OptionIs(c.password);
  }

  lemma PublishIs(m: PublishPacket, version: ProtocolVersion)
    requires FieldsFit(Publish(m)) && PublishBody(m, version).Ok?
    ensures PublishBody(m, version).value == BodyStandard(Publish(m), version)
  {
    hide OptionalPropertiesBytes, PrefixedTruncating, Spelt, Block, U16Bytes, Big16;
    BlockIs(m.properties, version);
    PrefixIs(m.topic);
    if m.packetId.Some? {
      NumbersAreStandard(m.packetId.value, 0, []);
    }
  }

  /** Every well-formed packet is written as the standard lays it out. */
  lemma WrittenAsStandard(p: Packet, version: ProtocolVersion)
    requires WellFormed(p, version)
    ensures var body := BodyStandard(p, version);
            && |body| <= 268_435_455
            && PacketBytes(p, version) == Ok([FirstStandard(p)] + Varint(|body|) + body)
  {
    hide BodyBytes, BodyStandard, FieldsFit, ListsFilled, FirstByte, FirstStandard, Varint, VbiBytes;
    BodyIs(p, version);
    FirstIs(p);
    var body := BodyStandard(p, version);
    VarintIsStandard(|body|);
    assert [FirstStandard(p)] + (Varint(|body|) + body) == [FirstStandard(p)] + Varint(|body|) + body;
  }

  lemma FirstIs(p: Packet)
    ensures FirstByte(p) == FirstStandard(p)
  {
    if p.Publish? {
      NumberIs(p.publish.qos);
    }
  }

  lemma BodyIs(p: Packet, version: ProtocolVersion)
    requires FieldsFit(p) && BodyBytes(p, version).Ok?
    ensures BodyBytes(p, version).value == BodyStandard(p, version)
  {
    hide ConnectBody, ConnectStandard, PublishBody, OptionalPropertiesBytes, Block, U16Bytes, Big16, SubscriptionsBytes, Entries,
         TopicsBytes, Names, CodeBytes, CodeNumbers, ReturnCodeByte, CodeNumber;
    if p.Connect? {
      ConnectIs(p.connect);
    } else if p.Connack? {
      BlockIs(p.connackProperties, version);
      CodeIs(p.returnCode, version);
    } else if p.Publish? {
      PublishIs(p.publish, version);
    } else if p.Subscribe? || p.Suback? || p.Unsubscribe? || p.Unsuback? {
      ListsAre(p, version);
    } else if !p.Pingreq? && !p.Pingresp? && !p.Disconnect? {
      NumbersAreStandard(p.id, 0, []);
    }
  }

  lemma ListsAre(p: Packet, version: ProtocolVersion)
    requires p.Subscribe? || p.Suback? || p.Unsubscribe? || p.Unsuback?
    requires FieldsFit(p) && BodyBytes(p, version).Ok?
    ensures BodyBytes(p, version).value == BodyStandard(p, version)
  {
    hide U16Bytes, Big16, SubscriptionsBytes, Entries, TopicsBytes, Names, CodeBytes, CodeNumbers;
    NumbersAreStandard(p.id, 0, []);
    if p.Subscribe? {
      EntriesAre(p.subscriptions);
    } else if p.Suback? {
      CodesAre(p.returnCodes);
    } else if p.Unsubscribe? {
      NamesAre(p.topics);
    }
  }

  lemma CodeIs(code: ReturnCode, version: ProtocolVersion)
    ensures ReturnCodeByte(code, version) == CodeNumber(code, version)
  {
  }

  lemma CodesAre(codes: seq<SubackCode>)
    ensures CodeBytes(codes) == CodeNumbers(codes)
  {
    forall i | 0 <= i < |codes|
      ensures CodeBytes(codes)[i] == CodeNumbers(codes)[i]
    {
      if codes[i].Granted? {
        NumberIs(codes[i].qos);
      }
    }
  }

  // ---------- which bodies are accepted ----------

  /** A property block that stands from `c` to `end`; version 3.1.1 has none. */
  ghost predicate BlockAt(body: Bytes, c: nat, version: ProtocolVersion, p: Properties, end: nat) {
    if version.V311? then p == DEFAULT && end == c
    else exists rs :: AcceptedAs(body, c, p, end, rs)
  }

  lemma BlockReads(body: Bytes, c: nat, version: ProtocolVersion, p: Properties, end: nat)
    ensures OptionalPropertiesAt(body, c, version) == Ok((p, end)) <==> BlockAt(body, c, version, p, end)
  {
    hide PropertiesAt, AcceptedAs;
    if version.V5? {
      AcceptsExactly(body, c, p, end);
    }
  }

  /** The version 5 tail: nothing, a reason code, or a reason code and a property block with nothing after it. */
  ghost predicate TailOk(body: Bytes, c: nat) {
    c == |body| || c + 1 == |body| || (c + 1 < |body| && BlockToEnd(body, c + 1))
  }

  ghost predicate BlockToEnd(body: Bytes, c: nat) {
    exists p :: BlockAt(body, c, V5, p, |body|)
  }

  lemma TailReads(body: Bytes, c: nat)
    requires c <= |body|
    ensures ReasonTail(body, c).Ok? <==> TailOk(body, c)
  {
    hide PropertiesAt, BlockAt;
    if c + 1 < |body| {
      if ReasonTail(body, c).Ok? {
        var (p, end) := PropertiesAt(body, c + 1).value;
        BlockReads(body, c + 1, V5, p, end);
      }
      if BlockToEnd(body, c + 1) {
        var d := c + 1;
        var p :| BlockAt(body, d, V5, p, |body|);
        BlockReads(body, d, V5, p, |body|);
      }
    }
  }

  function AckOf(kind: nat, id: U16): Packet
    requires 4 <= kind <= 7
  {
    match kind
    case 4 => Puback(id)
    case 5 => Pubrec(id)
    case 6 => Pubrel(id)
    case _ => Pubcomp(id)
  }

  /**
    PUBACK, PUBREC, PUBREL and PUBCOMP, exactly: the identifier, the flags 0, or 2
    for PUBREL, and in version 5 a tail, in version 3.1.1 nothing more.
   */
  lemma AckExactly(first: Byte, body: Bytes, version: ProtocolVersion, id: U16)
    requires 4 <= first / 16 <= 7
    ensures BodyParsed(first, body, version) == Ok(AckOf(first / 16, id)) <==>
              && Holds(body, 0, Big16(id))
              && first as int % 16 == (if first / 16 == 6 then 2 else 0)
              && (if version.V311? then |body| == 2 else TailOk(body, 2))
    ensures BodyParsed(first, body, version).Ok? ==> exists i :: BodyParsed(first, body, version) == Ok(AckOf(first / 16, i))
  {
    hide ReasonTail, TailOk, U16At, ConnectParsed, ConnackParsed, PublishParsed, SubscribeParsed, SubackParsed,
         UnsubscribeParsed, UnsubackParsed, Big16, U16Bytes;
    NumbersAreStandard(id, 0, []);
    U16Reads(body, 0, id, 2);
    if |body| >= 2 {
      U16Present(body, 0);
      TailReads(body, 2);
      TailEnds(body);
    }
    var expected: Byte := if first / 16 == 6 then 2 else 0;
    var parsed := AckIdParsed(first, expected, body, version);
    if parsed.Ok? {
      assert BodyParsed(first, body, version) == Ok(AckOf(first / 16, parsed.value));
    }
  }

  lemma TailEnds(body: Bytes)
    ensures |body| == 2 ==> ReasonTail(body, 2) == Ok(())
  {
  }

  /** DISCONNECT, exactly: nothing, or in version 5 a tail; its flags are not looked at. */
  lemma DisconnectExactly(first: Byte, body: Bytes, version: ProtocolVersion)
    requires first / 16 == 14
    ensures BodyParsed(first, body, version) == Ok(Disconnect) <==> if version.V311? then body == [] else TailOk(body, 0)
    ensures BodyParsed(first, body, version).Ok? ==> BodyParsed(first, body, version) == Ok(Disconnect)
  {
    hide ReasonTail, TailOk;
    TailReads(body, 0);
  }

  /** PINGREQ and PINGRESP have no body. */
  lemma PingExactly(first: Byte, body: Bytes, version: ProtocolVersion)
    requires first / 16 == 12 || first / 16 == 13
    ensures BodyParsed(first, body, version)
         == if body == [] then Ok(if first / 16 == 12 then Pingreq else Pingresp) else Err(PayloadTooLong(|body|, Some(0)))
  {
  }

  /** One entry of a SUBSCRIBE: a topic and an options byte whose reserved bits are clear. */
  predicate EntryAt(body: Bytes, c: nat, version: ProtocolVersion, s: TopicSubscription) {
    && |s.topic| <= 65_535 && Holds(body, c, Field(s.topic)) && c + 2 + |s.topic| < |body|
    && var options: int := body[c + 2 + |s.topic|];
    && options % 4 == Number(s.qos)
    && if version.V311? then options <= 2 else options < 64 && options / 16 != 3
  }

  lemma EntryReads(body: Bytes, c: nat, version: ProtocolVersion, s: TopicSubscription, end: nat)
    ensures SubscriptionAt(body, c, version) == Ok((s, end)) <==> EntryAt(body, c, version, s) && end == c + 3 + |s.topic|
  {
    hide TextAt, Holds, Field, Prefixed;
    NumberIs(s.qos);
    NumbersAreStandard(0, 0, s.topic);
    TextReads(body, c, s.topic, c + 2 + |s.topic|);
    if TextAt(body, c).Ok? {
      var (t, d) := TextAt(body, c).value;
      TextReads(body, c, t, d);
      if d < |body| {
        OptionsAre(body[d], version);
      }
    }
  }

  lemma OptionsAre(options: Byte, version: ProtocolVersion)
    ensures SubscribeOptionsOk(options, version) <==> if version.V311? then options <= 2 else options < 64 && options / 16 != 3
    ensures forall q: QoS :: QosOf(options as int % 4) == Some(q) <==> options as int % 4 == Number(q)
  {
  }

  predicate EntriesAt(body: Bytes, c: nat, version: ProtocolVersion, subs: seq<TopicSubscription>)
    decreases |subs|
  {
    if subs == [] then c >= |body|
    else EntryAt(body, c, version, subs[0]) && EntriesAt(body, c + 3 + |subs[0].topic|, version, subs[1..])
  }

  lemma {:induction false} EntriesRead(body: Bytes, c: nat, version: ProtocolVersion, subs: seq<TopicSubscription>)
    ensures SubscriptionsAt(body, c, version) == Ok(subs) <==> EntriesAt(body, c, version, subs)
    decreases |body| - c, |subs|
  {
    hide SubscriptionAt, EntryAt;
    if subs != [] {
      EntryReads(body, c, version, subs[0], c + 3 + |subs[0].topic|);
      EntryWithin(body, c, version, subs[0]);
    }
    if c < |body| && SubscriptionAt(body, c, version).Ok? {
      var (s, d) := SubscriptionAt(body, c, version).value;
      EntryReads(body, c, version, s, d);
      if subs != [] && subs[0] == s {
        EntriesRead(body, d, version, subs[1..]);
        assert subs == [s] + subs[1..];
      }
    }
  }

  lemma EntryWithin(body: Bytes, c: nat, version: ProtocolVersion, s: TopicSubscription)
    ensures EntryAt(body, c, version, s) ==> c < |body|
  {
  }

  /** SUBSCRIBE, exactly. */
  lemma SubscribeExactly(body: Bytes, version: ProtocolVersion, id: U16, subs: seq<TopicSubscription>)
    ensures SubscribeParsed(body, version) == Ok(Subscribe(id, subs)) <==>
              && |body| >= 5 && Holds(body, 0, Big16(id))
              && exists p, c: nat :: BlockAt(body, 2, version, p, c) && EntriesAt(body, c, version, subs)
  {
    hide U16At, OptionalPropertiesAt, SubscriptionsAt, EntriesAt, BlockAt, Holds, Big16, U16Bytes;
    NumbersAreStandard(id, 0, []);
    U16Reads(body, 0, id, 2);
    if OptionalPropertiesAt(body, 2, version).Ok? {
      var (p, c) := OptionalPropertiesAt(body, 2, version).value;
      BlockReads(body, 2, version, p, c);
      EntriesRead(body, c, version, subs);
    }
    forall p, c: nat | BlockAt(body, 2, version, p, c)
      ensures OptionalPropertiesAt(body, 2, version) == Ok((p, c))
    {
      BlockReads(body, 2, version, p, c);
    }
  }

  predicate NamesAt(body: Bytes, c: nat, topics: seq<Text>)
    decreases |topics|
  {
    if topics == [] then c >= |body|
    else |topics[0]| <= 65_535 && Holds(body, c, Field(topics[0])) && NamesAt(body, c + 2 + |topics[0]|, topics[1..])
  }

  lemma {:induction false} NamesRead(body: Bytes, c: nat, topics: seq<Text>)
    ensures TopicsAt(body, c) == Ok(topics) <==> NamesAt(body, c, topics)
    decreases |body| - c, |topics|
  {
    hide TextAt, Holds, Field, Prefixed;
    if topics != [] {
      NumbersAreStandard(0, 0, topics[0]);
      TextReads(body, c, topics[0], c + 2 + |topics[0]|);
    }
    if c < |body| && TextAt(body, c).Ok? {
      var (t, d) := TextAt(body, c).value;
      TextReads(body, c, t, d);
      if topics != [] && topics[0] == t {
        NamesRead(body, d, topics[1..]);
        assert topics == [t] + topics[1..];
      }
    }
  }

  /** UNSUBSCRIBE, exactly. */
  lemma UnsubscribeExactly(body: Bytes, version: ProtocolVersion, id: U16, topics: seq<Text>)
    ensures UnsubscribeParsed(body, version) == Ok(Unsubscribe(id, topics)) <==>
              && |body| >= 4 && Holds(body, 0, Big16(id))
              && exists p, c: nat :: BlockAt(body, 2, version, p, c) && NamesAt(body, c, topics)
  {
    hide U16At, OptionalPropertiesAt, TopicsAt, NamesAt, BlockAt, Holds, Big16, U16Bytes;
    NumbersAreStandard(id, 0, []);
    U16Reads(body, 0, id, 2);
    if OptionalPropertiesAt(body, 2, version).Ok? {
      var (p, c) := OptionalPropertiesAt(body, 2, version).value;
      BlockReads(body, 2, version, p, c);
      NamesRead(body, c, topics);
    }
    forall p, c: nat | BlockAt(body, 2, version, p, c)
      ensures OptionalPropertiesAt(body, 2, version) == Ok((p, c))
    {
      BlockReads(body, 2, version, p, c);
    }
  }

  /** A SUBACK code: a granted QoS, or a failure, which is 0x80 and in version 5 anything above. */
  predicate CodeAt(b: Byte, version: ProtocolVersion, code: SubackCode) {
    match code
    case Granted(q) => b == Number(q)
    case Failure => if version.V311? then b == 0x80 else b >= 0x80
  }

  lemma CodeReads(b: Byte, version: ProtocolVersion, code: SubackCode)
    ensures SubackCodeOf(b, version) == Ok(code) <==> CodeAt(b, version, code)
    ensures SubackCodeOf(b, version).Err? ==> SubackCodeOf(b, version) == Err(InvalidPacketType(b))
  {
  }

  lemma {:induction false} CodesReadExactly(bytes: Bytes, version: ProtocolVersion, codes: seq<SubackCode>)
    ensures SubackCodes(bytes, version) == Ok(codes) <==>
              |codes| == |bytes| && forall i | 0 <= i < |bytes| :: CodeAt(bytes[i], version, codes[i])
    decreases |bytes|
  {
    hide CodeAt, SubackCodeOf;
    if bytes != [] && codes != [] {
      CodeReads(bytes[0], version, codes[0]);
      CodesReadExactly(bytes[1..], version, codes[1..]);
      assert codes == [codes[0]] + codes[1..];
      assert forall i | 0 < i < |bytes| :: bytes[i] == bytes[1..][i - 1];
      assert forall i | 0 < i < |codes| :: codes[i] == codes[1..][i - 1];
      if |codes| == |bytes| && forall i | 0 <= i < |bytes| :: CodeAt(bytes[i], version, codes[i]) {
        assert forall i | 0 <= i < |bytes[1..]| :: bytes[1..][i] == bytes[i + 1] && codes[1..][i] == codes[i + 1];
      }
    }
  }

  /** SUBACK, exactly. */
  lemma SubackExactly(body: Bytes, version: ProtocolVersion, id: U16, codes: seq<SubackCode>)
    ensures SubackParsed(body, version) == Ok(Suback(id, codes)) <==>
              && |body| >= 3 && Holds(body, 0, Big16(id))
              && exists p, c: nat :: BlockAt(body, 2, version, p, c) && c + |codes| == |body|
                                && forall i | 0 <= i < |codes| :: CodeAt(body[c + i], version, codes[i])
  {
    hide U16At, OptionalPropertiesAt, SubackCodes, CodeAt, BlockAt, Holds, Big16, U16Bytes;
    NumbersAreStandard(id, 0, []);
    U16Reads(body, 0, id, 2);
    if |body| >= 3 && OptionalPropertiesAt(body, 2, version).Ok? {
      var (p, c) := OptionalPropertiesAt(body, 2, version).value;
      BlockReads(body, 2, version, p, c);
      CodesReadExactly(body[c..], version, codes);
      assert forall i | 0 <= i < |body[c..]| :: body[c..][i] == body[c + i];
      if SubackCodes(body[c..], version) == Ok(codes) {
        assert c + |codes| == |body| && forall i | 0 <= i < |codes| :: CodeAt(body[c + i], version, codes[i]);
      }
    }
    forall p, c: nat | BlockAt(body, 2, version, p, c)
      ensures OptionalPropertiesAt(body, 2, version) == Ok((p, c))
    {
      BlockReads(body, 2, version, p, c);
    }
  }

  /** UNSUBACK, exactly: in version 3.1.1 the identifier alone, in version 5 whatever codes follow the block. */
  lemma UnsubackExactly(body: Bytes, version: ProtocolVersion, id: U16, codes: Bytes)
    ensures UnsubackParsed(body, version) == Ok(Unsuback(id, codes)) <==>
              && Holds(body, 0, Big16(id)) && (version.V311? ==> |body| == 2)
              && exists p, c: nat :: BlockAt(body, 2, version, p, c) && c <= |body| && body[c..] == codes
  {
    hide U16At, OptionalPropertiesAt, BlockAt, Big16, U16Bytes;
    NumbersAreStandard(id, 0, []);
    U16Reads(body, 0, id, 2);
    if OptionalPropertiesAt(body, 2, version).Ok? {
      var (p, c) := OptionalPropertiesAt(body, 2, version).value;
      BlockReads(body, 2, version, p, c);
    }
    forall p, c: nat | BlockAt(body, 2, version, p, c)
      ensures OptionalPropertiesAt(body, 2, version) == Ok((p, c))
    {
      BlockReads(body, 2, version, p, c);
    }
  }

  /** CONNACK, exactly: bit 0 of the first byte, a known code, a block and nothing more. */
  lemma ConnackExactly(body: Bytes, version: ProtocolVersion, p: Properties, present: bool, code: ReturnCode)
    ensures ConnackParsed(body, version) == Ok(Connack(p, present, code)) <==>
              && |body| >= 2 && (body[0] as int % 2 == 1 <==> present) && body[1] == CodeNumber(code, version)
              && BlockAt(body, 2, version, p, |body|)
  {
    hide OptionalPropertiesAt, BlockAt, ReturnCodeOf, CodeNumber;
    if |body| >= 2 {
      CodeOf(body[1], version, code);
      BlockReads(body, 2, version, p, |body|);
    }
  }

  lemma CodeOf(b: Byte, version: ProtocolVersion, code: ReturnCode)
    ensures ReturnCodeOf(b, version) == Some(code) <==> b == CodeNumber(code, version)
  {
  }

  /** The fields of a PUBLISH one after the other, from the topic to where the payload starts. */
  ghost predicate FieldsStand(body: Bytes, version: ProtocolVersion, m: PublishPacket, e: nat) {
    && |m.topic| <= 65_535 && Holds(body, 0, Field(m.topic))
    && var c := 2 + |m.topic|;
    && (m.packetId.Some? ==> Holds(body, c, Big16(m.packetId.value)))
    && BlockAt(body, if m.packetId.Some? then c + 2 else c, version, m.properties, e)
    && e <= |body| && body[e..] == m.payload
  }

  /** PUBLISH, exactly: the flags, the topic, an identifier just above QoS 0, a block, and the rest is the payload. */
  lemma PublishExactly(first: Byte, body: Bytes, version: ProtocolVersion, m: PublishPacket)
    ensures PublishParsed(first, body, version) == Ok(Publish(m)) <==>
              && (first as int / 8 % 2 == 1 <==> m.dup) && first as int / 2 % 4 == Number(m.qos)
              && (first as int % 2 == 1 <==> m.retain)
              && (m.packetId.Some? <==> !m.qos.AtMostOnce?)
              && exists e: nat :: FieldsStand(body, version, m, e)
  {
    hide FieldsStand, TextAt, OptionalPropertiesAt, PublishIdAt;
    NumberIs(m.qos);
    if PublishParsed(first, body, version) == Ok(Publish(m)) {
      FieldsFound(first, body, version, m);
    }
    if (m.packetId.Some? <==> !m.qos.AtMostOnce?) && exists e: nat :: FieldsStand(body, version, m, e) {
      var e: nat :| FieldsStand(body, version, m, e);
      FieldsRead(body, version, m, e);
    }
  }

  lemma FieldsFound(first: Byte, body: Bytes, version: ProtocolVersion, m: PublishPacket)
    requires PublishParsed(first, body, version) == Ok(Publish(m))
    ensures m.packetId.Some? <==> !m.qos.AtMostOnce?
    ensures exists e: nat :: FieldsStand(body, version, m, e)
  {
    hide TextAt, OptionalPropertiesAt, BlockAt, U16At, Big16, U16Bytes, Field, Prefixed, Holds;
    var (topic, c) := TextAt(body, 0).value;
    var (id, d) := PublishIdAt(body, c, m.qos).value;
    var (p, e) := OptionalPropertiesAt(body, d, version).value;
    NumbersAreStandard(0, 0, topic);
    TextReads(body, 0, topic, c);
    if id.Some? {
      NumbersAreStandard(id.value, 0, []);
      U16Reads(body, c, id.value, c + 2);
    }
    BlockReads(body, d, version, p, e);
    assert FieldsStand(body, version, m, e);
  }

  lemma FieldsRead(body: Bytes, version: ProtocolVersion, m: PublishPacket, e: nat)
    requires FieldsStand(body, version, m, e) && (m.packetId.Some? <==> !m.qos.AtMostOnce?)
    ensures var c := 2 + |m.topic|;
            var d := if m.packetId.Some? then c + 2 else c;
            && |body| >= 2 && TextAt(body, 0) == Ok((m.topic, c)) && PublishIdAt(body, c, m.qos) == Ok((m.packetId, d))
            && OptionalPropertiesAt(body, d, version) == Ok((m.properties, e)) && body[e..] == m.payload
  {
    hide TextAt, OptionalPropertiesAt, BlockAt, U16At, Big16, U16Bytes, Field, Prefixed;
    var c := 2 + |m.topic|;
    NumbersAreStandard(0, 0, m.topic);
    TextReads(body, 0, m.topic, c);
    if m.packetId.Some? {
      NumbersAreStandard(m.packetId.value, 0, []);
      U16Reads(body, c, m.packetId.value, c + 2);
    }
    BlockReads(body, if m.packetId.Some? then c + 2 else c, version, m.properties, e);
  }

  // ---------- CONNECT ----------

  /** The Will, if bit 2 of the flags is set: a block, a topic and a payload, with QoS in bits 3 and 4 and retain in bit 5. */
  ghost predicate WillStands(body: Bytes, c: nat, version: ProtocolVersion, flags: Byte, will: Option<WillPacket>, end: nat) {
    if flags as int / 4 % 2 == 0 then will.None? && end == c
    else
      && will.Some?
      && var w := will.value;
      && flags as int / 8 % 4 == Number(w.qos) && (flags as int / 32 % 2 == 1 <==> w.retain)
      && |w.topic| <= 65_535 && |w.payload| <= 65_535
      && exists d: nat :: BlockAt(body, c, version, w.properties, d) && Holds(body, d, Field(w.topic))
                          && Holds(body, d + 2 + |w.topic|, Field(w.payload)) && end == d + 4 + |w.topic| + |w.payload|
  }

  lemma WillReads(body: Bytes, c: nat, version: ProtocolVersion, flags: Byte, will: Option<WillPacket>, end: nat)
    ensures WillAt(body, c, version, flags) == Ok((will, end)) <==> WillStands(body, c, version, flags, will, end)
  {
    hide OptionalPropertiesAt, BlockAt, TextAt, PrefixedAt, Holds, Field, Prefixed;
    if will.Some? {
      var w := will.value;
      NumberIs(w.qos);
      NumbersAreStandard(0, 0, w.topic);
      NumbersAreStandard(0, 0, w.payload);
      forall d: nat | BlockAt(body, c, version, w.properties, d)
        ensures OptionalPropertiesAt(body, c, version) == Ok((w.properties, d))
        ensures TextAt(body, d) == Ok((w.topic, d + 2 + |w.topic|)) <==> Short(w.topic) && Holds(body, d, Prefixed(w.topic))
        ensures PrefixedAt(body, d + 2 + |w.topic|) == Ok((w.payload, d + 4 + |w.topic| + |w.payload|)) <==>
                  Short(w.payload) && Holds(body, d + 2 + |w.topic|, Prefixed(w.payload))
      {
        BlockReads(body, c, version, w.properties, d);
        TextReads(body, d, w.topic, d + 2 + |w.topic|);
        PrefixedReads(body, d + 2 + |w.topic|, w.payload, d + 4 + |w.topic| + |w.payload|);
      }
    }
    if OptionalPropertiesAt(body, c, version).Ok? {
      var (p, d) := OptionalPropertiesAt(body, c, version).value;
      BlockReads(body, c, version, p, d);
      if TextAt(body, d).Ok? {
        var (t, e) := TextAt(body, d).value;
        TextReads(body, d, t, e);
        if PrefixedAt(body, e).Ok? {
          var (y, g) := PrefixedAt(body, e).value;
          PrefixedReads(body, e, y, g);
        }
      }
    }
  }

  /** A string or binary field, if its flag is set. */
  predicate FieldStands(body: Bytes, c: nat, flag: bool, o: Option<Bytes>, end: nat) {
    if !flag then o.None? && end == c
    else o.Some? && |o.value| <= 65_535 && Holds(body, c, Field(o.value)) && end == c + 2 + |o.value|
  }

  lemma UsernameReads(body: Bytes, c: nat, flags: Byte, o: Option<Text>, end: nat)
    ensures UsernameAt(body, c, flags) == Ok((o, end)) <==> FieldStands(body, c, flags as int / 128 % 2 == 1, o, end)
  {
    hide TextAt, Holds, Field, Prefixed;
    if o.Some? {
      NumbersAreStandard(0, 0, o.value);
      TextReads(body, c, o.value, end);
    }
  }

  lemma PasswordReads(body: Bytes, c: nat, flags: Byte, o: Option<Bytes>, end: nat)
    ensures PasswordAt(body, c, flags) == Ok((o, end)) <==> FieldStands(body, c, flags as int / 64 % 2 == 1, o, end)
  {
    hide PrefixedAt, Holds, Field, Prefixed;
    if o.Some? {
      NumbersAreStandard(0, 0, o.value);
      PrefixedReads(body, c, o.value, end);
    }
  }

  /** Where the parts of a CONNECT after its header stand: block, client identifier, Will, user name and password. */
  ghost predicate PartsStand(body: Bytes, p: ConnectPacket, flags: Byte, c: nat, d: nat, e: nat, g: nat) {
    && BlockAt(body, 10, p.version, p.properties, c)
    && |p.clientId| <= 65_535 && Holds(body, c, Field(p.clientId))
    && WillStands(body, c + 2 + |p.clientId|, p.version, flags, p.will, d)
    && FieldStands(body, d, flags as int / 128 % 2 == 1, p.username, e)
    && FieldStands(body, e, flags as int / 64 % 2 == 1, p.password, g)
  }

  /** CONNECT, exactly: the header, and its parts one after the other; what follows them is not looked at. */
  lemma ConnectExactly(body: Bytes, p: ConnectPacket)
    ensures ConnectParsed(body) == Ok(Connect(p)) <==>
              && |body| >= 10 && body[..6] == [0x00, 0x04, 0x4D, 0x51, 0x54, 0x54]
              && body[6] == (if p.version.V311? then 4 else 5)
              && (body[7] as int / 2 % 2 == 1 <==> p.cleanSession) && Holds(body, 8, Big16(p.keepAlive))
              && exists c: nat, d: nat, e: nat, g: nat :: PartsStand(body, p, body[7], c, d, e, g)
  {
    hide BlockAt, WillStands, FieldStands, OptionalPropertiesAt, TextAt, WillAt, UsernameAt, PasswordAt, U16At, Holds, Field,
         Prefixed, Big16, U16Bytes;
    if |body| >= 10 {
      var flags := body[7];
      NumbersAreStandard(p.keepAlive, 0, p.clientId);
      U16Reads(body, 8, p.keepAlive, 10);
      if ConnectParsed(body) == Ok(Connect(p)) {
        PartsFound(body, p);
      }
      if c: nat, d: nat, e: nat, g: nat :| PartsStand(body, p, flags, c, d, e, g) {
        PartsRead(body, p, flags, c, d, e, g);
      }
    }
  }

  lemma PartsFound(body: Bytes, p: ConnectPacket)
    requires |body| >= 10 && ConnectParsed(body) == Ok(Connect(p))
    ensures exists c: nat, d: nat, e: nat, g: nat :: PartsStand(body, p, body[7], c, d, e, g)
  {
    hide BlockAt, WillStands, FieldStands, OptionalPropertiesAt, TextAt, WillAt, UsernameAt, PasswordAt, U16At, Holds, Field,
         Prefixed;
    var flags := body[7];
    var (properties, c) := OptionalPropertiesAt(body, 10, p.version).value;
    var (id, c1) := TextAt(body, c).value;
    var (will, d) := WillAt(body, c1, p.version, flags).value;
    var (username, e) := UsernameAt(body, d, flags).value;
    var (password, g) := PasswordAt(body, e, flags).value;
    BlockReads(body, 10, p.version, properties, c);
    NumbersAreStandard(0, 0, id);
    TextReads(body, c, id, c1);
    WillReads(body, c1, p.version, flags, will, d);
    UsernameReads(body, d, flags, username, e);
    PasswordReads(body, e, flags, password, g);
    assert PartsStand(body, p, flags, c, d, e, g);
  }

  lemma PartsRead(body: Bytes, p: ConnectPacket, flags: Byte, c: nat, d: nat, e: nat, g: nat)
    requires PartsStand(body, p, flags, c, d, e, g)
    ensures OptionalPropertiesAt(body, 10, p.version) == Ok((p.properties, c))
    ensures TextAt(body, c) == Ok((p.clientId, c + 2 + |p.clientId|))
    ensures WillAt(body, c + 2 + |p.clientId|, p.version, flags) == Ok((p.will, d))
    ensures UsernameAt(body, d, flags) == Ok((p.username, e))
    ensures PasswordAt(body, e, flags) == Ok((p.password, g))
  {
    hide BlockAt, WillStands, FieldStands, OptionalPropertiesAt, TextAt, WillAt, UsernameAt, PasswordAt, Holds, Field, Prefixed;
    BlockReads(body, 10, p.version, p.properties, c);
    NumbersAreStandard(0, 0, p.clientId);
    TextReads(body, c, p.clientId, c + 2 + |p.clientId|);
    WillReads(body, c + 2 + |p.clientId|, p.version, flags, p.will, d);
    UsernameReads(body, d, flags, p.username, e);
    PasswordReads(body, e, flags, p.password, g);
  }
}
