/** The fourteen MQTT control packets and their code tables. */
module Packets {
  import opened Wire
  import opened PropertyFields

  datatype QoS = AtMostOnce | AtLeastOnce | ExactlyOnce {
    function Level(): Byte {
      match this
      case AtMostOnce => 0
      case AtLeastOnce => 1
      case ExactlyOnce => 2
    }
  }

  function QosOf(level: Byte): (q: Option<QoS>)
    ensures level < 3 <==> q.Some?
    ensures q.Some? ==> q.value.Level() == level
  {
    match level
    case 0 => Some(AtMostOnce)
    case 1 => Some(AtLeastOnce)
    case 2 => Some(ExactlyOnce)
    case _ => None
  }

  function MinQos(a: QoS, b: QoS): QoS {
    if a.Level() <= b.Level() then a else b
  }

  datatype ProtocolVersion = V311 | V5 {
    function Level(): Byte {
      if V311? then 4 else 5
    }
  }

  datatype ReturnCode =
    | Accepted
    | UnacceptableProtocolVersion
    | IdentifierRejected
    | ServerUnavailable
    | BadUsernameOrPassword
    | NotAuthorized

  function ReturnCodeByte(code: ReturnCode, version: ProtocolVersion): Byte {
    match code
    case Accepted => 0x00
    case UnacceptableProtocolVersion => if version.V311? then 1 else 0x84
    case IdentifierRejected => if version.V311? then 2 else 0x85
    case ServerUnavailable => if version.V311? then 3 else 0x88
    case BadUsernameOrPassword => if version.V311? then 4 else 0x86
    case NotAuthorized => if version.V311? then 5 else 0x87
  }

  function ReturnCodeOf(b: Byte, version: ProtocolVersion): Option<ReturnCode> {
    if version.V311? then
      match b
      case 0 => Some(Accepted)
      case 1 => Some(UnacceptableProtocolVersion)
      case 2 => Some(IdentifierRejected)
      case 3 => Some(ServerUnavailable)
      case 4 => Some(BadUsernameOrPassword)
      case 5 => Some(NotAuthorized)
      case _ => None
    else
      match b
      case 0x00 => Some(Accepted)
      case 0x84 => Some(UnacceptableProtocolVersion)
      case 0x85 => Some(IdentifierRejected)
      case 0x86 => Some(BadUsernameOrPassword)
      case 0x87 => Some(NotAuthorized)
      case 0x88 => Some(ServerUnavailable)
      case _ => None
  }

  datatype SubackCode = Granted(qos: QoS) | Failure {
    function Code(): Byte {
      if Granted? then qos.Level() else 0x80
    }
  }

  datatype WillPacket = WillPacket(properties: Properties, topic: Text, payload: Bytes, qos: QoS, retain: bool)

  datatype ConnectPacket = ConnectPacket(
    version: ProtocolVersion,
    properties: Properties,
    clientId: Text,
    cleanSession: bool,
    keepAlive: U16,
    username: Option<Text>,
    password: Option<Bytes>,
    will: Option<WillPacket>)

  datatype PublishPacket = PublishPacket(
    properties: Properties,
    topic: Text,
    payload: Bytes,
    dup: bool,
    qos: QoS,
    retain: bool,
    packetId: Option<U16>)

  datatype TopicSubscription = TopicSubscription(topic: Text, qos: QoS)

  datatype Packet =
    | Connect(connect: ConnectPacket)
    | Connack(connackProperties: Properties, sessionPresent: bool, returnCode: ReturnCode)
    | Publish(publish: PublishPacket)
    | Puback(id: U16)
    | Pubrec(id: U16)
    | Pubrel(id: U16)
    | Pubcomp(id: U16)
    | Subscribe(id: U16, subscriptions: seq<TopicSubscription>)
    | Suback(id: U16, returnCodes: seq<SubackCode>)
    | Unsubscribe(id: U16, topics: seq<Text>)
    | Unsuback(id: U16, reasonCodes: Bytes)
    | Pingreq
    | Pingresp
    | Disconnect
}
