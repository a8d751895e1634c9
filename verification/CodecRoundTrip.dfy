/** Decoding a packet body undoes encoding it, exactly on the well-formed packets. */
module CodecRoundTrip {
  import opened Wire
  import opened VarInt
  import opened PropertyFields
  import opened PropertyCodec
  import opened PropertyOrder
  import opened Packets
  import opened Codec

  // ---------- which packets survive ----------

  predicate Short(s: Bytes) {
    |s| < 0x1_0000
  }

  predicate ShortOption(s: Option<Bytes>) {
    s.Some? ==> Short(s.value)
  }

  /** Every length-prefixed field fits its prefix, and a PUBLISH has an identifier exactly when QoS is above 0. */
  predicate FieldsFit(p: Packet) {
    match p
    case Connect(c) =>
      && Short(c.clientId) && ShortOption(c.username) && ShortOption(c.password)
      && (c.will.Some? ==> Short(c.will.value.topic) && Short(c.will.value.payload))
    case Publish(p) => Short(p.topic) && (p.packetId.Some? <==> !p.qos.AtMostOnce?)
    case Subscribe(_, subs) => forall i | 0 <= i < |subs| :: Short(subs[i].topic)
    case Unsubscribe(_, topics) => forall i | 0 <= i < |topics| :: Short(topics[i])
    case _ => true
  }

  /** The lists that the decoders insist on are not empty. */
  predicate ListsFilled(p: Packet, version: ProtocolVersion) {
    match p
    case Subscribe(_, subs) => subs != []
    case Unsubscribe(_, topics) => topics != []
    case Suback(_, codes) => version.V311? ==> codes != []
    case _ => true
  }

  predicate WellFormed(p: Packet, version: ProtocolVersion) {
    && FieldsFit(p)
    && ListsFilled(p, version)
    && BodyBytes(p, version).Ok?
    && |BodyBytes(p, version).value| <= MAX_VARIABLE_BYTE_INTEGER
  }

  function NormalConnect(c: ConnectPacket): ConnectPacket {
    if c.version.V5? then c
    else c.(properties := DEFAULT,
            will := if c.will.None? then None else Some(c.will.value.(properties := DEFAULT)))
  }

  /** What the wire can carry: version 3.1.1 drops properties and UNSUBACK reason codes. */
  function Normal(p: Packet, version: ProtocolVersion): Packet {
    match p
    case Connect(c) => Connect(NormalConnect(c))
    case Connack(properties, present, code) => if version.V5? then p else Connack(DEFAULT, present, code)
    case Publish(publish) => if version.V5? then p else Publish(publish.(properties := DEFAULT))
    case Unsuback(id, codes) => if version.V5? then p else Unsuback(id, [])
    case _ => p
  }

  // ---------- the pieces ----------

  lemma OptionalPropertiesRead(body: Bytes, c: nat, p: Properties, version: ProtocolVersion)
    requires OptionalPropertiesBytes(p, version).Ok?
    requires Holds(body, c, OptionalPropertiesBytes(p, version).value)
    ensures OptionalPropertiesAt(body, c, version)
         == Ok((if version.V5? then p else DEFAULT, c + |OptionalPropertiesBytes(p, version).value|))
  {
    hide PropertiesAt, EncodedProperties;
    if version.V5? {
      PropertiesRoundTrip(body, c, p);
    }
  }

  /** The empty block: one zero byte. */
  lemma EmptyBlockEncodes()
    ensures EncodedProperties(DEFAULT) == Ok([0x00])
  {
    hide EncodedRecords, RecordsFor;
    NoRecords(TABLE);
    RecordsTyped(DEFAULT, TABLE);
    assert RecordsOf(DEFAULT) == [];
    EncodedNothing();
    assert VbiBytes(0) + [] == [0x00];
  }

  lemma {:induction false} NoRecords(ids: seq<Byte>)
    ensures RecordsFor(DEFAULT, ids) == []
  {
    hide Get;
    if ids != [] {
      EmptyHoldsNothing(ids[0]);
      NoRecords(ids[1..]);
    }
  }

  lemma EmptyBlockRead(body: Bytes, c: nat, version: ProtocolVersion)
    requires Holds(body, c, EmptyBlock(version))
    ensures OptionalPropertiesAt(body, c, version) == Ok((DEFAULT, c + |EmptyBlock(version)|))
  {
    hide PropertiesAt, EncodedProperties;
    EmptyBlockEncodes();
    OptionalPropertiesRead(body, c, DEFAULT, version);
  }

  lemma ConnectFlagBits(p: ConnectPacket)
    ensures var flags := ConnectFlags(p);
            && Bit(flags, 0x02) == p.cleanSession
            && Bit(flags, 0x04) == p.will.Some?
            && Bit(flags, 0x40) == p.password.Some?
            && Bit(flags, 0x80) == p.username.Some?
            && (p.will.Some? ==> flags as int / 8 % 4 == p.will.value.qos.Level() as int
                                 && Bit(flags, 0x20) == p.will.value.retain)
  {
    hide ConnectFlags;
    var clean, password, username := Digit(p.cleanSession), Digit(p.password.Some?), Digit(p.username.Some?);
    var qos := if p.will.None? then 0 else p.will.value.qos.Level() as int;
    var retain := if p.will.None? then 0 else Digit(p.will.value.retain);
    FlagsAre(p);
    FlagDigits(clean, Digit(p.will.Some?), qos, retain, password, username);
  }

  lemma FlagsAre(p: ConnectPacket)
    ensures ConnectFlags(p) as int
         == 2 * Digit(p.cleanSession) + 4 * Digit(p.will.Some?) + 8 * (if p.will.None? then 0 else p.will.value.qos.Level() as int)
            + 32 * (if p.will.None? then 0 else Digit(p.will.value.retain)) + 64 * Digit(p.password.Some?)
            + 128 * Digit(p.username.Some?)
  {
  }

  function Digit(b: bool): nat {
    if b then 1 else 0
  }

  lemma FlagDigits(clean: nat, will: nat, qos: nat, retain: nat, password: nat, username: nat)
    requires clean < 2 && will < 2 && qos < 4 && retain < 2 && password < 2
    ensures var flags := 2 * clean + 4 * will + 8 * qos + 32 * retain + 64 * password + 128 * username;
            && flags / 2 % 2 == clean && flags / 4 % 2 == will && flags / 8 % 4 == qos && flags / 32 % 2 == retain
            && flags / 64 % 2 == password && flags / 128 == username
  {
    DigitAt2(clean, will + 2 * qos + 8 * retain + 16 * password + 32 * username);
    DigitAt4(2 * clean, will, qos + 4 * retain + 8 * password + 16 * username);
    DigitAt8(2 * clean + 4 * will, qos, retain + 2 * password + 4 * username);
    DigitAt32(2 * clean + 4 * will + 8 * qos, retain, password + 2 * username);
    DigitAt64(2 * clean + 4 * will + 8 * qos + 32 * retain, password, username);
  }

  lemma DigitAt2(digit: nat, high: nat)
    requires digit < 2
    ensures (2 * digit + 4 * high) / 2 % 2 == digit
  {
    assert (2 * digit + 4 * high) / 2 == digit + 2 * high;
  }

  lemma DigitAt4(low: nat, digit: nat, high: nat)
    requires low < 4 && digit < 2
    ensures (low + 4 * digit + 8 * high) / 4 % 2 == digit
  {
    assert (low + 4 * digit + 8 * high) / 4 == digit + 2 * high;
  }

  lemma DigitAt8(low: nat, digit: nat, high: nat)
    requires low < 8 && digit < 4
    ensures (low + 8 * digit + 32 * high) / 8 % 4 == digit
  {
    assert (low + 8 * digit + 32 * high) / 8 == digit + 4 * high;
  }

  lemma DigitAt32(low: nat, digit: nat, high: nat)
    requires low < 32 && digit < 2
    ensures (low + 32 * digit + 64 * high) / 32 % 2 == digit
  {
    assert (low + 32 * digit + 64 * high) / 32 == digit + 2 * high;
  }

  lemma DigitAt64(low: nat, digit: nat, high: nat)
    requires low < 64 && digit < 2
    ensures (low + 64 * digit + 128 * high) / 64 % 2 == digit
    ensures (low + 64 * digit + 128 * high) / 128 == high
  {
    assert (low + 64 * digit + 128 * high) / 64 == digit + 2 * high;
  }

  lemma WillRead(body: Bytes, c: nat, p: ConnectPacket)
    requires FieldsFit(Connect(p)) && WillBytes(p.will, p.version).Ok?
    requires Holds(body, c, WillBytes(p.will, p.version).value)
    ensures WillAt(body, c, p.version, ConnectFlags(p))
         == Ok((NormalConnect(p).will, c + |WillBytes(p.will, p.version).value|))
  {
    hide OptionalPropertiesAt, OptionalPropertiesBytes, TextAt, PrefixedAt, ConnectFlags, PrefixedTruncating, Holds, Bit,
         QosOf;
    ConnectFlagBits(p);
    if p.will.Some? {
      WillLayout(body, c, p.will.value, p.version);
      QosRead(p.will.value.qos);
    }
  }

  lemma WillLayout(body: Bytes, c: nat, w: WillPacket, version: ProtocolVersion)
    requires Short(w.topic) && Short(w.payload) && WillBytes(Some(w), version).Ok?
    requires Holds(body, c, WillBytes(Some(w), version).value)
    ensures var block := OptionalPropertiesBytes(w.properties, version);
            && block.Ok?
            && var d := c + |block.value|;
            && OptionalPropertiesAt(body, c, version) == Ok((if version.V5? then w.properties else DEFAULT, d))
            && TextAt(body, d) == Ok((w.topic, d + 2 + |w.topic|))
            && PrefixedAt(body, d + 2 + |w.topic|) == Ok((w.payload, d + 4 + |w.topic| + |w.payload|))
            && c + |WillBytes(Some(w), version).value| == d + 4 + |w.topic| + |w.payload|
  {
    hide OptionalPropertiesAt, OptionalPropertiesBytes, TextAt, PrefixedAt, Prefixed, Holds;
    var block := OptionalPropertiesBytes(w.properties, version).value;
    var topic, payload := Prefixed(w.topic), Prefixed(w.payload);
    HoldsConcat(body, c, block, topic + payload);
    HoldsConcat(body, c + |block|, topic, payload);
    OptionalPropertiesRead(body, c, w.properties, version);
    TextReads(body, c + |block|, w.topic, c + |block| + |topic|);
    PrefixedReads(body, c + |block| + |topic|, w.payload, c + |block| + |topic| + |payload|);
  }

  lemma CredentialsRead(body: Bytes, c: nat, p: ConnectPacket)
    requires FieldsFit(Connect(p))
    requires Holds(body, c, OptionalField(p.username) + OptionalField(p.password))
    ensures var d := c + |OptionalField(p.username)|;
            && UsernameAt(body, c, ConnectFlags(p)) == Ok((p.username, d))
            && PasswordAt(body, d, ConnectFlags(p)) == Ok((p.password, d + |OptionalField(p.password)|))
  {
    hide TextAt, PrefixedAt, ConnectFlags, Prefixed;
    ConnectFlagBits(p);
    HoldsConcat(body, c, OptionalField(p.username), OptionalField(p.password));
    var d := c + |OptionalField(p.username)|;
    if p.username.Some? {
      TextReads(body, c, p.username.value, d);
    }
    if p.password.Some? {
      PrefixedReads(body, d, p.password.value, d + |OptionalField(p.password)|);
    }
  }

  lemma ConnectHeaderRead(body: Bytes, p: ConnectPacket)
    requires Holds(body, 0, ConnectHeader(p))
    ensures |body| >= 10 && body[..6] == MQTT_NAME
    ensures body[6] == p.version.Level() && body[7] == ConnectFlags(p) && U16At(body, 8) == Ok((p.keepAlive, 10))
  {
    hide ConnectFlags;
    var h := ConnectHeader(p);
    assert body[0..10] == h;
    assert body[..6] == h[..6] == MQTT_NAME;
    assert body[6] == h[6] && body[7] == h[7];
    assert body[8..10] == h[8..10] == U16Bytes(p.keepAlive);
    U16Reads(body, 8, p.keepAlive, 10);
  }

  lemma ConnectLayout(p: ConnectPacket)
    requires FieldsFit(Connect(p)) && ConnectBody(p).Ok?
    ensures var body, block := ConnectBody(p).value, OptionalPropertiesBytes(p.properties, p.version).value;
            var c := 10 + |block|;
            var d := c + 2 + |p.clientId|;
            var will := WillBytes(p.will, p.version).value;
            && Holds(body, 0, ConnectHeader(p)) && Holds(body, 10, block)
            && Holds(body, c, Prefixed(p.clientId)) && Holds(body, d, will)
            && Holds(body, d + |will|, OptionalField(p.username) + OptionalField(p.password))
  {
    hide OptionalPropertiesBytes, ConnectHeader, WillBytes, OptionalField, Prefixed, Holds;
    var body := ConnectBody(p).value;
    var head, block := ConnectHeader(p), OptionalPropertiesBytes(p.properties, p.version).value;
    var client, will := Prefixed(p.clientId), WillBytes(p.will, p.version).value;
    var tail := OptionalField(p.username) + OptionalField(p.password);
    HoldsAll(body);
    HoldsConcat(body, 0, head, block + (client + (will + tail)));
    HoldsConcat(body, 10, block, client + (will + tail));
    HoldsConcat(body, 10 + |block|, client, will + tail);
    HoldsConcat(body, 10 + |block| + |client|, will, tail);
  }

  lemma HoldsAll(body: Bytes)
    ensures Holds(body, 0, body)
  {
    assert body[0..|body|] == body;
  }

  lemma ConnectRoundTrip(p: ConnectPacket)
    requires FieldsFit(Connect(p)) && ConnectBody(p).Ok?
    ensures ConnectParsed(ConnectBody(p).value) == Ok(Connect(NormalConnect(p)))
  {
    hide OptionalPropertiesAt, OptionalPropertiesBytes, TextAt, PrefixedAt, ConnectFlags, ConnectHeader, ConnectBody,
         WillAt, UsernameAt, PasswordAt, WillBytes, OptionalField, U16At, Prefixed, Holds, Bit;
    ConnectLayout(p);
    ConnectBodyPieces(p);
    var body, block := ConnectBody(p).value, OptionalPropertiesBytes(p.properties, p.version).value;
    var c := 10 + |block|;
    var d := c + 2 + |p.clientId|;
    ConnectHeaderRead(body, p);
    ConnectFlagBits(p);
    OptionalPropertiesRead(body, 10, p.properties, p.version);
    TextReads(body, c, p.clientId, d);
    WillRead(body, d, p);
    CredentialsRead(body, d + |WillBytes(p.will, p.version).value|, p);
  }

  lemma ConnectBodyPieces(p: ConnectPacket)
    requires ConnectBody(p).Ok?
    ensures OptionalPropertiesBytes(p.properties, p.version).Ok? && WillBytes(p.will, p.version).Ok?
  {
  }

  lemma ConnackRoundTrip(p: Packet, version: ProtocolVersion)
    requires p.Connack? && BodyBytes(p, version).Ok?
    ensures ConnackParsed(BodyBytes(p, version).value, version) == Ok(Normal(p, version))
  {
    hide OptionalPropertiesAt, OptionalPropertiesBytes;
    var body, block := BodyBytes(p, version).value, OptionalPropertiesBytes(p.connackProperties, version).value;
    assert body[2..] == block && body[2..2 + |block|] == block;
    OptionalPropertiesRead(body, 2, p.connackProperties, version);
  }

  lemma PublishFlagBits(p: PublishPacket)
    ensures var first := FirstByte(Publish(p));
            && first as int / 2 % 4 == p.qos.Level() as int
            && Bit(first, 0x08) == p.dup && Bit(first, 0x01) == p.retain
  {
  }

  lemma PublishLayout(p: PublishPacket, version: ProtocolVersion)
    requires Short(p.topic) && PublishBody(p, version).Ok?
    ensures var body, block := PublishBody(p, version).value, OptionalPropertiesBytes(p.properties, version).value;
            var c := 2 + |p.topic|;
            var d := c + |PublishIdBytes(p)|;
            && Holds(body, 0, Prefixed(p.topic)) && Holds(body, c, PublishIdBytes(p)) && Holds(body, d, block)
            && body[d + |block|..] == p.payload
  {
    hide OptionalPropertiesBytes, Prefixed, PublishIdBytes, Holds;
    var body := PublishBody(p, version).value;
    var topic, id := Prefixed(p.topic), PublishIdBytes(p);
    var block := OptionalPropertiesBytes(p.properties, version).value;
    HoldsAll(body);
    HoldsConcat(body, 0, topic, id + (block + p.payload));
    HoldsConcat(body, |topic|, id, block + p.payload);
    HoldsConcat(body, |topic| + |id|, block, p.payload);
    assert body[|topic| + |id| + |block|..] == p.payload;
  }

  lemma PublishIdRead(body: Bytes, c: nat, p: PublishPacket)
    requires FieldsFit(Publish(p)) && Holds(body, c, PublishIdBytes(p))
    ensures PublishIdAt(body, c, p.qos) == Ok((p.packetId, c + |PublishIdBytes(p)|))
  {
    if p.packetId.Some? {
      U16Reads(body, c, p.packetId.value, c + 2);
    }
  }

  lemma QosRead(q: QoS)
    ensures QosOf(q.Level()) == Some(q)
  {
  }

  lemma PublishRoundTrip(p: PublishPacket, version: ProtocolVersion)
    requires FieldsFit(Publish(p)) && PublishBody(p, version).Ok?
    ensures PublishParsed(FirstByte(Publish(p)), PublishBody(p, version).value, version)
         == Ok(Normal(Publish(p), version))
  {
    hide OptionalPropertiesAt, OptionalPropertiesBytes, TextAt, FirstByte, Bit, PublishBody, PublishIdAt, PublishIdBytes,
         QosOf, FieldsFit;
    PublishFieldsRead(p, version);
    PublishBodyPieces(p, version);
    PublishFlagBits(p);
    QosRead(p.qos);
  }

  lemma PublishFieldsRead(p: PublishPacket, version: ProtocolVersion)
    requires FieldsFit(Publish(p)) && PublishBody(p, version).Ok?
    ensures OptionalPropertiesBytes(p.properties, version).Ok?
    ensures var body, block := PublishBody(p, version).value, OptionalPropertiesBytes(p.properties, version).value;
            var c := 2 + |p.topic|;
            var d := c + |PublishIdBytes(p)|;
            && TextAt(body, 0) == Ok((p.topic, c)) && PublishIdAt(body, c, p.qos) == Ok((p.packetId, d))
            && OptionalPropertiesAt(body, d, version) == Ok((if version.V5? then p.properties else DEFAULT, d + |block|))
            && d + |block| <= |body| && body[d + |block|..] == p.payload
  {
    hide OptionalPropertiesAt, OptionalPropertiesBytes, TextAt, Prefixed, PublishBody, PublishIdAt, PublishIdBytes;
    PublishBodyPieces(p, version);
    PublishLayout(p, version);
    var body := PublishBody(p, version).value;
    var c := 2 + |p.topic|;
    TextReads(body, 0, p.topic, c);
    PublishIdRead(body, c, p);
    OptionalPropertiesRead(body, c + |PublishIdBytes(p)|, p.properties, version);
  }

  lemma PublishBodyPieces(p: PublishPacket, version: ProtocolVersion)
    requires PublishBody(p, version).Ok?
    ensures OptionalPropertiesBytes(p.properties, version).Ok? && |PublishBody(p, version).value| >= 2
  {
    hide OptionalPropertiesBytes;
  }

  lemma AckRoundTrip(first: Byte, expected: Byte, id: U16, version: ProtocolVersion)
    requires first as int % 16 == expected
    ensures AckIdParsed(first, expected, U16Bytes(id), version) == Ok(id)
  {
    HoldsAll(U16Bytes(id));
    U16Reads(U16Bytes(id), 0, id, 2);
  }

  /** The identifier and the empty property block that open the four subscription packets. */
  lemma HeaderRead(body: Bytes, id: U16, version: ProtocolVersion, rest: Bytes)
    requires body == U16Bytes(id) + (EmptyBlock(version) + rest)
    ensures U16At(body, 0) == Ok((id, 2))
    ensures OptionalPropertiesAt(body, 2, version) == Ok((DEFAULT, 2 + |EmptyBlock(version)|))
    ensures body[2 + |EmptyBlock(version)|..] == rest && |body| == 2 + |EmptyBlock(version)| + |rest|
  {
    hide OptionalPropertiesAt;
    HoldsAll(body);
    HoldsConcat(body, 0, U16Bytes(id), EmptyBlock(version) + rest);
    HoldsConcat(body, 2, EmptyBlock(version), rest);
    U16Reads(body, 0, id, 2);
    EmptyBlockRead(body, 2, version);
  }

  lemma SubscriptionRead(body: Bytes, c: nat, s: TopicSubscription, version: ProtocolVersion)
    requires Short(s.topic) && Holds(body, c, Prefixed(s.topic) + [s.qos.Level()])
    ensures SubscriptionAt(body, c, version) == Ok((s, c + 3 + |s.topic|))
  {
    hide TextAt, Prefixed;
    HoldsConcat(body, c, Prefixed(s.topic), [s.qos.Level()]);
    TextReads(body, c, s.topic, c + 2 + |s.topic|);
    U8Reads(body, c + 2 + |s.topic|, s.qos.Level(), c + 3 + |s.topic|);
  }

  lemma {:induction false} SubscriptionsRead(body: Bytes, c: nat, subs: seq<TopicSubscription>, version: ProtocolVersion)
    requires c <= |body| && body[c..] == SubscriptionsBytes(subs)
    requires forall i | 0 <= i < |subs| :: Short(subs[i].topic)
    ensures SubscriptionsAt(body, c, version) == Ok(subs)
    decreases |subs|
  {
    hide SubscriptionAt, Prefixed, SubscriptionsBytes, Holds;
    SubscriptionsSplit(body, c, subs);
    if subs != [] {
      var s := subs[0];
      SubscriptionRead(body, c, s, version);
      SubscriptionsRead(body, c + 3 + |s.topic|, subs[1..], version);
      assert subs == [s] + subs[1..];
    }
  }

  lemma SubscriptionsSplit(body: Bytes, c: nat, subs: seq<TopicSubscription>)
    requires c <= |body| && body[c..] == SubscriptionsBytes(subs)
    requires subs != [] ==> Short(subs[0].topic)
    ensures subs == [] ==> c == |body|
    ensures subs != [] ==>
              var d := c + 3 + |subs[0].topic|;
              && Holds(body, c, Prefixed(subs[0].topic) + [subs[0].qos.Level()])
              && d <= |body| && body[d..] == SubscriptionsBytes(subs[1..])
  {
    hide Prefixed, SubscriptionsBytes;
    SubscriptionsUnfold(subs);
    if subs != [] {
      var item, rest := Prefixed(subs[0].topic) + [subs[0].qos.Level()], SubscriptionsBytes(subs[1..]);
      assert body[c..] == item + rest;
      assert body[c..][..|item|] == item && body[c..][|item|..] == rest;
      assert body[c..c + |item|] == body[c..][..|item|] && body[c + |item|..] == body[c..][|item|..];
    }
  }

  lemma SubscriptionsUnfold(subs: seq<TopicSubscription>)
    requires subs != [] ==> Short(subs[0].topic)
    ensures subs == [] ==> SubscriptionsBytes(subs) == []
    ensures subs != [] ==>
              SubscriptionsBytes(subs) == Prefixed(subs[0].topic) + [subs[0].qos.Level()] + SubscriptionsBytes(subs[1..])
  {
    hide Prefixed;
  }

  lemma {:induction false} TopicsRead(body: Bytes, c: nat, topics: seq<Text>)
    requires c <= |body| && body[c..] == TopicsBytes(topics)
    requires forall i | 0 <= i < |topics| :: Short(topics[i])
    ensures TopicsAt(body, c) == Ok(topics)
    decreases |topics|
  {
    hide TextAt, Prefixed;
    if topics != [] {
      var item, rest := Prefixed(topics[0]), TopicsBytes(topics[1..]);
      assert body[c..] == item + rest;
      assert body[c..c + |item|] == item && body[c + |item|..] == rest;
      TextReads(body, c, topics[0], c + |item|);
      TopicsRead(body, c + |item|, topics[1..]);
      assert topics == [topics[0]] + topics[1..];
    }
  }

  lemma CodeRead(code: SubackCode, version: ProtocolVersion)
    ensures SubackCodeOf(code.Code(), version) == Ok(code)
  {
  }

  lemma {:induction false} CodesRead(codes: seq<SubackCode>, version: ProtocolVersion)
    ensures SubackCodes(CodeBytes(codes), version) == Ok(codes)
  {
    hide SubackCodeOf;
    if codes != [] {
      CodeRead(codes[0], version);
      assert CodeBytes(codes)[0] == codes[0].Code();
      CodesRead(codes[1..], version);
      assert CodeBytes(codes)[1..] == CodeBytes(codes[1..]);
      assert codes == [codes[0]] + codes[1..];
    }
  }

  lemma SubscriptionPacketsRoundTrip(p: Packet, version: ProtocolVersion)
    requires p.Subscribe? || p.Unsubscribe? || p.Suback? || p.Unsuback?
    requires FieldsFit(p) && ListsFilled(p, version)
    ensures BodyParsed(FirstByte(p), BodyBytes(p, version).value, version) == Ok(Normal(p, version))
  {
    hide OptionalPropertiesAt, U16At, SubscriptionsAt, TopicsAt, SubackCodes, SubscriptionsBytes, TopicsBytes, U16Bytes,
         ConnectParsed, ConnackParsed, PublishParsed, AckIdParsed, ConnectBody, PublishBody, PublishFlags;
    var body := BodyBytes(p, version).value;
    var rest := match p
      case Subscribe(_, subs) => SubscriptionsBytes(subs)
      case Unsubscribe(_, topics) => TopicsBytes(topics)
      case Suback(_, codes) => CodeBytes(codes)
      case Unsuback(_, codes) => if version.V5? then codes else [];
    HeaderRead(body, p.id, version, rest);
    var c := 2 + |EmptyBlock(version)|;
    match p
    case Subscribe(_, subs) =>
      SubscriptionsLength(subs);
      SubscriptionsRead(body, c, subs, version);
    case Unsubscribe(_, topics) =>
      TopicsLength(topics);
      TopicsRead(body, c, topics);
    case Suback(_, codes) => CodesRead(codes, version);
    case Unsuback(_, codes) =>
  }

  lemma SubscriptionsLength(subs: seq<TopicSubscription>)
    ensures |SubscriptionsBytes(subs)| >= 3 || subs == []
  {
  }

  lemma TopicsLength(topics: seq<Text>)
    ensures |TopicsBytes(topics)| >= 2 || topics == []
  {
  }

  /** The bodies of well-formed packets decode to the packets, as far as the version carries them. */
  lemma BodyRoundTrip(p: Packet, version: ProtocolVersion)
    requires FieldsFit(p) && ListsFilled(p, version) && BodyBytes(p, version).Ok?
    ensures BodyParsed(FirstByte(p), BodyBytes(p, version).value, version) == Ok(Normal(p, version))
  {
    hide ConnectParsed, ConnackParsed, PublishParsed, AckIdParsed, SubscribeParsed, SubackParsed, UnsubscribeParsed,
         UnsubackParsed, ConnectBody, PublishBody, PublishFlags, NormalConnect;
    match p
    case Connect(c) => ConnectRoundTrip(c);
    case Connack(_, _, _) => ConnackRoundTrip(p, version);
    case Publish(publish) => PublishRoundTrip(publish, version); PublishFirst(publish);
    case Puback(id) => AckRoundTrip(0x40, 0, id, version);
    case Pubrec(id) => AckRoundTrip(0x50, 0, id, version);
    case Pubrel(id) => AckRoundTrip(0x62, 2, id, version);
    case Pubcomp(id) => AckRoundTrip(0x70, 0, id, version);
    case Pingreq =>
    case Pingresp =>
    case Disconnect =>
    case _ => SubscriptionPacketsRoundTrip(p, version);
  }

  lemma PublishFirst(p: PublishPacket)
    ensures FirstByte(Publish(p)) / 16 == 3
  {
  }

  // ---------- and only they survive ----------

  lemma ConnectFits(body: Bytes)
    requires ConnectParsed(body).Ok?
    ensures FieldsFit(ConnectParsed(body).value)
  {
    hide OptionalPropertiesAt, TextAt, PrefixedAt, Bit, QosOf, U16At;
  }

  lemma PublishFits(first: Byte, body: Bytes, version: ProtocolVersion)
    requires PublishParsed(first, body, version).Ok?
    ensures FieldsFit(PublishParsed(first, body, version).value)
  {
    hide OptionalPropertiesAt, TextAt, Bit, QosOf, U16At;
  }

  lemma {:induction false} SubscriptionsFit(body: Bytes, c: nat, version: ProtocolVersion)
    requires SubscriptionsAt(body, c, version).Ok?
    ensures var subs := SubscriptionsAt(body, c, version).value; forall i | 0 <= i < |subs| :: Short(subs[i].topic)
    decreases |body| - c
  {
    hide TextAt, QosOf, SubscribeOptionsOk;
    if c < |body| {
      SubscriptionsFit(body, SubscriptionAt(body, c, version).value.1, version);
    }
  }

  lemma {:induction false} TopicsFit(body: Bytes, c: nat)
    requires TopicsAt(body, c).Ok?
    ensures var topics := TopicsAt(body, c).value; forall i | 0 <= i < |topics| :: Short(topics[i])
    decreases |body| - c
  {
    hide TextAt;
    if c < |body| {
      TopicsFit(body, TextAt(body, c).value.1);
    }
  }

  /** Whatever the decoder produces has fields that fit their prefixes. */
  lemma DecodedFits(first: Byte, body: Bytes, version: ProtocolVersion)
    requires 1 <= first / 16 <= 14 && BodyParsed(first, body, version).Ok?
    ensures FieldsFit(BodyParsed(first, body, version).value)
  {
    hide ConnectParsed, PublishParsed, OptionalPropertiesAt, U16At, SubscriptionsAt, TopicsAt, SubackCodes, ReasonTail,
         AckIdParsed, ConnackParsed;
    if first / 16 == 1 {
      ConnectFits(body);
    } else if first / 16 == 2 {
      ConnackIsConnack(body, version);
    } else if first / 16 == 3 {
      PublishFits(first, body, version);
    } else if first / 16 == 8 {
      var (_, c) := U16At(body, 0).value;
      SubscriptionsFit(body, OptionalPropertiesAt(body, c, version).value.1, version);
    } else if first / 16 == 10 {
      var (_, c) := U16At(body, 0).value;
      TopicsFit(body, OptionalPropertiesAt(body, c, version).value.1);
    }
  }

  lemma ConnackIsConnack(body: Bytes, version: ProtocolVersion)
    requires ConnackParsed(body, version).Ok?
    ensures ConnackParsed(body, version).value.Connack?
  {
    hide OptionalPropertiesAt, ReturnCodeOf;
  }

  /** The decoders reject the empty lists that the encoders write. */
  lemma EmptyListsRejected(p: Packet, version: ProtocolVersion)
    requires BodyBytes(p, version).Ok? && !ListsFilled(p, version)
    ensures BodyParsed(FirstByte(p), BodyBytes(p, version).value, version) == Err(UnexpectedEof)
  {
    hide OptionalPropertiesAt, U16At, SubscriptionsAt, TopicsAt, SubackCodes;
  }

  /** Decoding undoes encoding exactly when the fields fit and the lists are filled. */
  lemma BodyRoundTripExactly(p: Packet, version: ProtocolVersion)
    requires BodyBytes(p, version).Ok?
    ensures BodyParsed(FirstByte(p), BodyBytes(p, version).value, version) == Ok(Normal(p, version))
       <==> FieldsFit(p) && ListsFilled(p, version)
  {
    hide BodyParsed, BodyBytes, FirstByte;
    if FieldsFit(p) && ListsFilled(p, version) {
      BodyRoundTrip(p, version);
    } else if !ListsFilled(p, version) {
      EmptyListsRejected(p, version);
    } else if BodyParsed(FirstByte(p), BodyBytes(p, version).value, version) == Ok(Normal(p, version)) {
      DecodedFits(FirstByte(p), BodyBytes(p, version).value, version);
    }
  }
}
