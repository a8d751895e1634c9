/**
  The typed MQTT 5 property block: 25 optional fields and two lists, each with
  its identifier and wire type (section 2.2.2.2 of MQTT 5.0).

  `Get` and `Put` are the only way the codec touches a field, and the lemmas
  below are all it needs to know about the 27 of them.
 */
module PropertyFields {
  import opened Wire

  const PAYLOAD_FORMAT_INDICATOR: Byte := 0x01
  const MESSAGE_EXPIRY_INTERVAL: Byte := 0x02
  const CONTENT_TYPE: Byte := 0x03
  const RESPONSE_TOPIC: Byte := 0x08
  const CORRELATION_DATA: Byte := 0x09
  const SUBSCRIPTION_IDENTIFIER: Byte := 0x0B
  const SESSION_EXPIRY_INTERVAL: Byte := 0x11
  const ASSIGNED_CLIENT_IDENTIFIER: Byte := 0x12
  const SERVER_KEEP_ALIVE: Byte := 0x13
  const AUTHENTICATION_METHOD: Byte := 0x15
  const AUTHENTICATION_DATA: Byte := 0x16
  const REQUEST_PROBLEM_INFORMATION: Byte := 0x17
  const WILL_DELAY_INTERVAL: Byte := 0x18
  const REQUEST_RESPONSE_INFORMATION: Byte := 0x19
  const RESPONSE_INFORMATION: Byte := 0x1A
  const SERVER_REFERENCE: Byte := 0x1C
  const REASON_STRING: Byte := 0x1F
  const RECEIVE_MAXIMUM: Byte := 0x21
  const TOPIC_ALIAS_MAXIMUM: Byte := 0x22
  const TOPIC_ALIAS: Byte := 0x23
  const MAXIMUM_QOS: Byte := 0x24
  const RETAIN_AVAILABLE: Byte := 0x25
  const USER_PROPERTY: Byte := 0x26
  const MAXIMUM_PACKET_SIZE: Byte := 0x27
  const WILDCARD_SUBSCRIPTION_AVAILABLE: Byte := 0x28
  const SUBSCRIPTION_IDENTIFIER_AVAILABLE: Byte := 0x29
  const SHARED_SUBSCRIPTION_AVAILABLE: Byte := 0x2A

  /** Every identifier, in the order in which `encode_values` writes them. */
  const TABLE: seq<Byte> := [
    PAYLOAD_FORMAT_INDICATOR, MESSAGE_EXPIRY_INTERVAL, CONTENT_TYPE,
    RESPONSE_TOPIC, CORRELATION_DATA, SUBSCRIPTION_IDENTIFIER,
    SESSION_EXPIRY_INTERVAL, ASSIGNED_CLIENT_IDENTIFIER, SERVER_KEEP_ALIVE,
    AUTHENTICATION_METHOD, AUTHENTICATION_DATA, REQUEST_PROBLEM_INFORMATION,
    WILL_DELAY_INTERVAL, REQUEST_RESPONSE_INFORMATION, RESPONSE_INFORMATION,
    SERVER_REFERENCE, REASON_STRING, RECEIVE_MAXIMUM,
    TOPIC_ALIAS_MAXIMUM, TOPIC_ALIAS, MAXIMUM_QOS,
    RETAIN_AVAILABLE, USER_PROPERTY, MAXIMUM_PACKET_SIZE,
    WILDCARD_SUBSCRIPTION_AVAILABLE, SUBSCRIPTION_IDENTIFIER_AVAILABLE, SHARED_SUBSCRIPTION_AVAILABLE
  ]

  datatype Kind = OneByte | TwoByte | FourByte | TextField | BinaryField | VarintList | PairList

  function KindOf(id: Byte): (kind: Option<Kind>)
    ensures kind.Some? ==> id < 64
  {
    match id
    case 0x01 => Some(OneByte)
    case 0x02 => Some(FourByte)
    case 0x03 => Some(TextField)
    case 0x08 => Some(TextField)
    case 0x09 => Some(BinaryField)
    case 0x0B => Some(VarintList)
    case 0x11 => Some(FourByte)
    case 0x12 => Some(TextField)
    case 0x13 => Some(TwoByte)
    case 0x15 => Some(TextField)
    case 0x16 => Some(BinaryField)
    case 0x17 => Some(OneByte)
    case 0x18 => Some(FourByte)
    case 0x19 => Some(OneByte)
    case 0x1A => Some(TextField)
    case 0x1C => Some(TextField)
    case 0x1F => Some(TextField)
    case 0x21 => Some(TwoByte)
    case 0x22 => Some(TwoByte)
    case 0x23 => Some(TwoByte)
    case 0x24 => Some(OneByte)
    case 0x25 => Some(OneByte)
    case 0x26 => Some(PairList)
    case 0x27 => Some(FourByte)
    case 0x28 => Some(OneByte)
    case 0x29 => Some(OneByte)
    case 0x2A => Some(OneByte)
    case _ => None
  }

  predicate Repeatable(id: Byte) {
    id == USER_PROPERTY || id == SUBSCRIPTION_IDENTIFIER
  }

  datatype Value = Num(n: nat) | Str(text: Text) | Data(data: Bytes) | Pair(key: Text, value: Text)

  predicate TypedAs(kind: Kind, v: Value) {
    match kind
    case OneByte => v.Num? && v.n < 0x100
    case TwoByte => v.Num? && v.n < 0x1_0000
    case FourByte => v.Num? && v.n < 0x1_0000_0000
    case VarintList => v.Num? && v.n < 0x1_0000_0000
    case TextField => v.Str?
    case BinaryField => v.Data?
    case PairList => v.Pair?
  }

  /** The value has the type of the field that `id` names. */
  predicate Typed(id: Byte, v: Value) {
    KindOf(id).Some? && TypedAs(KindOf(id).value, v)
  }

  datatype Properties = Properties(
    payloadFormatIndicator: Option<Byte>,
    messageExpiryInterval: Option<U32>,
    contentType: Option<Text>,
    responseTopic: Option<Text>,
    correlationData: Option<Bytes>,
    subscriptionIdentifiers: seq<U32>,
    sessionExpiryInterval: Option<U32>,
    assignedClientIdentifier: Option<Text>,
    serverKeepAlive: Option<U16>,
    authenticationMethod: Option<Text>,
    authenticationData: Option<Bytes>,
    requestProblemInformation: Option<Byte>,
    willDelayInterval: Option<U32>,
    requestResponseInformation: Option<Byte>,
    responseInformation: Option<Text>,
    serverReference: Option<Text>,
    reasonString: Option<Text>,
    receiveMaximum: Option<U16>,
    topicAliasMaximum: Option<U16>,
    topicAlias: Option<U16>,
    maximumQos: Option<Byte>,
    retainAvailable: Option<Byte>,
    userProperties: seq<(Text, Text)>,
    maximumPacketSize: Option<U32>,
    wildcardSubscriptionAvailable: Option<Byte>,
    subscriptionIdentifierAvailable: Option<Byte>,
    sharedSubscriptionAvailable: Option<Byte>
  )

  const DEFAULT: Properties := Properties(
    None, None, None, None, None, [], None, None, None, None, None, None, None, None,
    None, None, None, None, None, None, None, None, [], None, None, None, None)

  function Nums(o: Option<nat>): seq<Value> {
    if o.None? then [] else [Num(o.value)]
  }

  function Texts(o: Option<Text>): seq<Value> {
    if o.None? then [] else [Str(o.value)]
  }

  function Datas(o: Option<Bytes>): seq<Value> {
    if o.None? then [] else [Data(o.value)]
  }

  function NumList(s: seq<nat>): seq<Value> {
    seq(|s|, i requires 0 <= i < |s| => Num(s[i]))
  }

  function PairListed(s: seq<(Text, Text)>): seq<Value> {
    seq(|s|, i requires 0 <= i < |s| => Pair(s[i].0, s[i].1))
  }

  /** The values that `p` holds for one identifier, in order. */
  function Get(p: Properties, id: Byte): seq<Value> {
    match id
    case 0x01 => Nums(p.payloadFormatIndicator)
    case 0x02 => Nums(p.messageExpiryInterval)
    case 0x03 => Texts(p.contentType)
    case 0x08 => Texts(p.responseTopic)
    case 0x09 => Datas(p.correlationData)
    case 0x0B => NumList(p.subscriptionIdentifiers)
    case 0x11 => Nums(p.sessionExpiryInterval)
    case 0x12 => Texts(p.assignedClientIdentifier)
    case 0x13 => Nums(p.serverKeepAlive)
    case 0x15 => Texts(p.authenticationMethod)
    case 0x16 => Datas(p.authenticationData)
    case 0x17 => Nums(p.requestProblemInformation)
    case 0x18 => Nums(p.willDelayInterval)
    case 0x19 => Nums(p.requestResponseInformation)
    case 0x1A => Texts(p.responseInformation)
    case 0x1C => Texts(p.serverReference)
    case 0x1F => Texts(p.reasonString)
    case 0x21 => Nums(p.receiveMaximum)
    case 0x22 => Nums(p.topicAliasMaximum)
    case 0x23 => Nums(p.topicAlias)
    case 0x24 => Nums(p.maximumQos)
    case 0x25 => Nums(p.retainAvailable)
    case 0x26 => PairListed(p.userProperties)
    case 0x27 => Nums(p.maximumPacketSize)
    case 0x28 => Nums(p.wildcardSubscriptionAvailable)
    case 0x29 => Nums(p.subscriptionIdentifierAvailable)
    case 0x2A => Nums(p.sharedSubscriptionAvailable)
    case _ => []
  }

  /** Store one more value: overwrite an optional field, append to a list. */
  function Put(p: Properties, id: Byte, v: Value): Properties
    requires Typed(id, v)
  {
    match id
    case 0x01 => p.(payloadFormatIndicator := Some(v.n))
    case 0x02 => p.(messageExpiryInterval := Some(v.n))
    case 0x03 => p.(contentType := Some(v.text))
    case 0x08 => p.(responseTopic := Some(v.text))
    case 0x09 => p.(correlationData := Some(v.data))
    case 0x0B => p.(subscriptionIdentifiers := p.subscriptionIdentifiers + [v.n])
    case 0x11 => p.(sessionExpiryInterval := Some(v.n))
    case 0x12 => p.(assignedClientIdentifier := Some(v.text))
    case 0x13 => p.(serverKeepAlive := Some(v.n))
    case 0x15 => p.(authenticationMethod := Some(v.text))
    case 0x16 => p.(authenticationData := Some(v.data))
    case 0x17 => p.(requestProblemInformation := Some(v.n))
    case 0x18 => p.(willDelayInterval := Some(v.n))
    case 0x19 => p.(requestResponseInformation := Some(v.n))
    case 0x1A => p.(responseInformation := Some(v.text))
    case 0x1C => p.(serverReference := Some(v.text))
    case 0x1F => p.(reasonString := Some(v.text))
    case 0x21 => p.(receiveMaximum := Some(v.n))
    case 0x22 => p.(topicAliasMaximum := Some(v.n))
    case 0x23 => p.(topicAlias := Some(v.n))
    case 0x24 => p.(maximumQos := Some(v.n))
    case 0x25 => p.(retainAvailable := Some(v.n))
    case 0x26 => p.(userProperties := p.userProperties + [(v.key, v.value)])
    case 0x27 => p.(maximumPacketSize := Some(v.n))
    case 0x28 => p.(wildcardSubscriptionAvailable := Some(v.n))
    case 0x29 => p.(subscriptionIdentifierAvailable := Some(v.n))
    case _ => p.(sharedSubscriptionAvailable := Some(v.n))
  }

  lemma GetPut(p: Properties, id: Byte, v: Value)
    requires Typed(id, v)
    ensures Get(Put(p, id, v), id) == if Repeatable(id) then Get(p, id) + [v] else [v]
  {
  }

  lemma GetPutOtherLow(p: Properties, id: Byte, v: Value, other: Byte)
    requires Typed(id, v) && other != id && id <= SESSION_EXPIRY_INTERVAL
    ensures Get(Put(p, id, v), other) == Get(p, other)
  {
  }

  lemma GetPutOtherMiddle(p: Properties, id: Byte, v: Value, other: Byte)
    requires Typed(id, v) && other != id && SESSION_EXPIRY_INTERVAL < id <= REQUEST_PROBLEM_INFORMATION
    ensures Get(Put(p, id, v), other) == Get(p, other)
  {
  }

  lemma GetPutOtherUpper(p: Properties, id: Byte, v: Value, other: Byte)
    requires Typed(id, v) && other != id && REQUEST_PROBLEM_INFORMATION < id <= SERVER_REFERENCE
    ensures Get(Put(p, id, v), other) == Get(p, other)
  {
  }

  lemma GetPutOtherHigh(p: Properties, id: Byte, v: Value, other: Byte)
    requires Typed(id, v) && other != id && SERVER_REFERENCE < id <= RETAIN_AVAILABLE
    ensures Get(Put(p, id, v), other) == Get(p, other)
  {
  }

  lemma GetPutOtherTop(p: Properties, id: Byte, v: Value, other: Byte)
    requires Typed(id, v) && other != id && RETAIN_AVAILABLE < id
    ensures Get(Put(p, id, v), other) == Get(p, other)
  {
  }

  lemma GetPutOther(p: Properties, id: Byte, v: Value, other: Byte)
    requires Typed(id, v) && other != id
    ensures Get(Put(p, id, v), other) == Get(p, other)
  {
    if id <= SESSION_EXPIRY_INTERVAL {
      GetPutOtherLow(p, id, v, other);
    } else if id <= REQUEST_PROBLEM_INFORMATION {
      GetPutOtherMiddle(p, id, v, other);
    } else if id <= SERVER_REFERENCE {
      GetPutOtherUpper(p, id, v, other);
    } else if id <= RETAIN_AVAILABLE {
      GetPutOtherHigh(p, id, v, other);
    } else {
      GetPutOtherTop(p, id, v, other);
    }
  }

  lemma GetTyped(p: Properties, id: Byte)
    ensures forall v | v in Get(p, id) :: Typed(id, v)
    ensures Repeatable(id) || |Get(p, id)| <= 1
  {
  }

  lemma NumListInjective(s: seq<nat>, t: seq<nat>)
    requires NumList(s) == NumList(t)
    ensures s == t
  {
    forall i | 0 <= i < |s| ensures |NumList(s)| == |t| && s[i] == t[i] {
      assert NumList(s)[i] == NumList(t)[i];
    }
    assert |s| == |NumList(s)| == |NumList(t)| == |t|;
  }

  lemma PairListedInjective(s: seq<(Text, Text)>, t: seq<(Text, Text)>)
    requires PairListed(s) == PairListed(t)
    ensures s == t
  {
    forall i | 0 <= i < |s| ensures |PairListed(s)| == |t| && s[i] == t[i] {
      assert PairListed(s)[i] == PairListed(t)[i];
    }
    assert |s| == |PairListed(s)| == |PairListed(t)| == |t|;
  }

  lemma SameFieldsLow(p: Properties, q: Properties)
    requires forall id: Byte :: Get(p, id) == Get(q, id)
    ensures p.payloadFormatIndicator == q.payloadFormatIndicator
    ensures p.messageExpiryInterval == q.messageExpiryInterval
    ensures p.contentType == q.contentType
    ensures p.responseTopic == q.responseTopic
    ensures p.correlationData == q.correlationData
    ensures p.subscriptionIdentifiers == q.subscriptionIdentifiers
    ensures p.sessionExpiryInterval == q.sessionExpiryInterval
  {
    assert Nums(p.payloadFormatIndicator) == Get(q, PAYLOAD_FORMAT_INDICATOR);
    assert Nums(p.messageExpiryInterval) == Get(q, MESSAGE_EXPIRY_INTERVAL);
    assert Texts(p.contentType) == Get(q, CONTENT_TYPE);
    assert Texts(p.responseTopic) == Get(q, RESPONSE_TOPIC);
    assert Datas(p.correlationData) == Get(q, CORRELATION_DATA);
    assert NumList(p.subscriptionIdentifiers) == Get(q, SUBSCRIPTION_IDENTIFIER);
    NumListInjective(p.subscriptionIdentifiers, q.subscriptionIdentifiers);
    assert Nums(p.sessionExpiryInterval) == Get(q, SESSION_EXPIRY_INTERVAL);
  }

  lemma SameFieldsMiddle(p: Properties, q: Properties)
    requires forall id: Byte :: Get(p, id) == Get(q, id)
    ensures p.assignedClientIdentifier == q.assignedClientIdentifier
    ensures p.serverKeepAlive == q.serverKeepAlive
    ensures p.authenticationMethod == q.authenticationMethod
    ensures p.authenticationData == q.authenticationData
    ensures p.requestProblemInformation == q.requestProblemInformation
    ensures p.willDelayInterval == q.willDelayInterval
    ensures p.requestResponseInformation == q.requestResponseInformation
    ensures p.responseInformation == q.responseInformation
    ensures p.serverReference == q.serverReference
  {
    assert Texts(p.assignedClientIdentifier) == Get(q, ASSIGNED_CLIENT_IDENTIFIER);
    assert Nums(p.serverKeepAlive) == Get(q, SERVER_KEEP_ALIVE);
    assert Texts(p.authenticationMethod) == Get(q, AUTHENTICATION_METHOD);
    assert Datas(p.authenticationData) == Get(q, AUTHENTICATION_DATA);
    assert Nums(p.requestProblemInformation) == Get(q, REQUEST_PROBLEM_INFORMATION);
    assert Nums(p.willDelayInterval) == Get(q, WILL_DELAY_INTERVAL);
    assert Nums(p.requestResponseInformation) == Get(q, REQUEST_RESPONSE_INFORMATION);
    assert Texts(p.responseInformation) == Get(q, RESPONSE_INFORMATION);
    assert Texts(p.serverReference) == Get(q, SERVER_REFERENCE);
  }

  lemma SameFieldsHigh(p: Properties, q: Properties)
    requires forall id: Byte :: Get(p, id) == Get(q, id)
    ensures p.reasonString == q.reasonString
    ensures p.receiveMaximum == q.receiveMaximum
    ensures p.topicAliasMaximum == q.topicAliasMaximum
    ensures p.topicAlias == q.topicAlias
    ensures p.maximumQos == q.maximumQos
    ensures p.retainAvailable == q.retainAvailable
  {
    assert Texts(p.reasonString) == Get(q, REASON_STRING);
    assert Nums(p.receiveMaximum) == Get(q, RECEIVE_MAXIMUM);
    assert Nums(p.topicAliasMaximum) == Get(q, TOPIC_ALIAS_MAXIMUM);
    assert Nums(p.topicAlias) == Get(q, TOPIC_ALIAS);
    assert Nums(p.maximumQos) == Get(q, MAXIMUM_QOS);
    assert Nums(p.retainAvailable) == Get(q, RETAIN_AVAILABLE);
  }

  lemma SameFieldsTop(p: Properties, q: Properties)
    requires forall id: Byte :: Get(p, id) == Get(q, id)
    ensures p.userProperties == q.userProperties
    ensures p.maximumPacketSize == q.maximumPacketSize
    ensures p.wildcardSubscriptionAvailable == q.wildcardSubscriptionAvailable
    ensures p.subscriptionIdentifierAvailable == q.subscriptionIdentifierAvailable
    ensures p.sharedSubscriptionAvailable == q.sharedSubscriptionAvailable
  {
    assert PairListed(p.userProperties) == Get(q, USER_PROPERTY);
    PairListedInjective(p.userProperties, q.userProperties);
    assert Nums(p.maximumPacketSize) == Get(q, MAXIMUM_PACKET_SIZE);
    assert Nums(p.wildcardSubscriptionAvailable) == Get(q, WILDCARD_SUBSCRIPTION_AVAILABLE);
    assert Nums(p.subscriptionIdentifierAvailable) == Get(q, SUBSCRIPTION_IDENTIFIER_AVAILABLE);
    assert Nums(p.sharedSubscriptionAvailable) == Get(q, SHARED_SUBSCRIPTION_AVAILABLE);
  }

  /** A block is determined by the values it holds. */
  lemma Extensional(p: Properties, q: Properties)
    requires forall id: Byte :: Get(p, id) == Get(q, id)
    ensures p == q
  {
    SameFieldsLow(p, q);
    SameFieldsMiddle(p, q);
    SameFieldsHigh(p, q);
    SameFieldsTop(p, q);
  }
}
