/**
  The receiving side of QoS 1 and QoS 2 on one server connection (section 4.3 of
  MQTT 3.1.1): what is stored, what is answered and what is handed to the
  endpoint chain, for any sequence of inbound packets.
 */
module Receiver {
  import opened Wire
  import opened Packets

  /** `qos2_recv`, the packets queued for the peer, and the messages handed on, oldest first. */
  datatype State = State(stored: map<U16, PublishPacket>, outbox: seq<Packet>, handed: seq<PublishPacket>)

  const FRESH := State(map[], [], [])

  /** A stored message as it is rebuilt when its PUBREL arrives. */
  function Released(p: PublishPacket, id: U16): PublishPacket {
    p.(dup := false, packetId := Some(id))
  }

  /** `m` carries what `p` carries, as a first delivery under `id`. */
  predicate SameMessage(m: PublishPacket, p: PublishPacket, id: U16) {
    && m.properties == p.properties && m.topic == p.topic && m.payload == p.payload
    && m.qos == p.qos && m.retain == p.retain
    && !m.dup && m.packetId == Some(id)
  }

  /** The packet is a QoS 2 PUBLISH with this identifier. */
  predicate Opens(p: Packet, id: U16) {
    p.Publish? && p.publish.qos.ExactlyOnce? && p.publish.packetId == Some(id)
  }

  /** SUBSCRIBE and UNSUBSCRIBE concern the broker; the remaining packets change nothing here. */
  function Step(s: State, p: Packet): State {
    match p
    case Publish(m) =>
      (match (m.qos, m.packetId)
       case (AtMostOnce, _) => s.(handed := s.handed + [m])
       case (AtLeastOnce, None) => s.(handed := s.handed + [m])
       case (AtLeastOnce, Some(id)) => s.(outbox := s.outbox + [Puback(id)], handed := s.handed + [m])
       case (ExactlyOnce, None) => s
       case (ExactlyOnce, Some(id)) => s.(stored := s.stored[id := m], outbox := s.outbox + [Pubrec(id)]))
    case Pubrel(id) =>
      State(s.stored - {id}, s.outbox + [Pubcomp(id)],
            if id in s.stored then s.handed + [Released(s.stored[id], id)] else s.handed)
    case Pubrec(id) => s.(outbox := s.outbox + [Pubrel(id)])
    case Pingreq => s.(outbox := s.outbox + [Pingresp])
    case _ => s
  }

  /** The answer to one packet. */
  function Reply(p: Packet): seq<Packet> {
    match p
    case Publish(m) =>
      if m.qos.AtMostOnce? || m.packetId.None? then []
      else if m.qos.AtLeastOnce? then [Puback(m.packetId.value)]
      else [Pubrec(m.packetId.value)]
    case Pubrel(id) => [Pubcomp(id)]
    case Pubrec(id) => [Pubrel(id)]
    case Pingreq => [Pingresp]
    case _ => []
  }

  /**
    The same packet when the writer has stopped: the reply fails and ends the
    handling. A QoS 1 message is acknowledged first, so it is not handed on; a
    QoS 2 message is stored or released before its reply.
   */
  function Unsent(s: State, p: Packet): State {
    if p.Publish? && p.publish.qos.AtLeastOnce? && p.publish.packetId.Some? then s else Step(s, p).(outbox := s.outbox)
  }

  class ServerConnection {
    var receiving: bool  // the writer still takes packets
    var qos2Recv: map<U16, PublishPacket>
    var outbox: seq<Packet>
    var handed: seq<PublishPacket>

    function View(): State
      reads this
    {
      State(qos2Recv, outbox, handed)
    }

    constructor ()
      ensures View() == FRESH && receiving
    {
      receiving, qos2Recv, outbox, handed := true, map[], [], [];
    }

    method StopWriter()
      modifies this`receiving
      ensures !receiving
    {
      receiving := false;
    }

    /** `abandon` drops the stored messages. */
    method Abandon()
      modifies this`qos2Recv
      ensures qos2Recv == map[]
    {
      qos2Recv := map[];
    }

    method SendPacket(p: Packet) returns (r: Result<()>)
      modifies this`outbox
      ensures r == if receiving then Ok(()) else Err(ChannelClosed)
      ensures outbox == if receiving then old(outbox) + [p] else old(outbox)
    {
      if !receiving {
        return Err(ChannelClosed);
      }
      outbox := outbox + [p];
      return Ok(());
    }

    /** Acknowledge before the chain runs; store a QoS 2 message until its PUBREL. */
    method AckInboundPublishPreChain(publish: PublishPacket) returns (r: Result<()>)
      modifies this`outbox, this`qos2Recv
      ensures r == if receiving || Reply(Publish(publish)) == [] then Ok(()) else Err(ChannelClosed)
      ensures outbox == if receiving then old(outbox) + Reply(Publish(publish)) else old(outbox)
      ensures qos2Recv == Step(old(View()), Publish(publish)).stored
    {
      r := Ok(());
      match publish.qos {
        case AtMostOnce =>
        case AtLeastOnce =>
          if publish.packetId.Some? {
            r := SendPacket(Puback(publish.packetId.value));
          }
        case ExactlyOnce =>
          if publish.packetId.Some? {
            qos2Recv := qos2Recv[publish.packetId.value := publish];
            r := SendPacket(Pubrec(publish.packetId.value));
          }
      }
    }

    /** The branches that concern this connection alone. */
    method Receive(packet: Packet) returns (r: Result<()>)
      modifies this`outbox, this`qos2Recv, this`handed
      ensures View() == if receiving then Step(old(View()), packet) else Unsent(old(View()), packet)
      ensures r == if receiving || Reply(packet) == [] then Ok(()) else Err(ChannelClosed)
    {
      r := Ok(());
      match packet {
        case Publish(publish) =>
          r := AckInboundPublishPreChain(publish);
          if r.Err? || publish.qos.ExactlyOnce? {
            return;
          }
          handed := handed + [publish];
        case Pubrel(id) =>
          if id in qos2Recv {
            var stored := qos2Recv[id];
            qos2Recv := qos2Recv - {id};
            handed := handed + [stored.(dup := false, packetId := Some(id))];
          }
          assert old(qos2Recv) - {id} == qos2Recv;
          r := SendPacket(Pubcomp(id));
        case Pubrec(id) =>
          r := SendPacket(Pubrel(id));
        case Pingreq =>
          r := SendPacket(Pingresp);
        case _ =>
      }
    }
  }

  function Run(h: seq<Packet>): State {
    if h == [] then FRESH else Step(Run(h[..|h| - 1]), h[|h| - 1])
  }

  // ---------- the reference: what the history says ----------

  /** The latest QoS 2 PUBLISH of `id` with no PUBREL of `id` after it. */
  function Unreleased(h: seq<Packet>, id: U16): Option<PublishPacket> {
    if h == [] then None
    else
      var p := h[|h| - 1];
      if Opens(p, id) then Some(p.publish)
      else if p == Pubrel(id) then None
      else Unreleased(h[..|h| - 1], id)
  }

  /** What the last packet of `h` hands on. */
  function HandedBy(h: seq<Packet>): seq<PublishPacket>
    requires h != []
  {
    var p := h[|h| - 1];
    if p.Publish? then (if p.publish.qos.ExactlyOnce? then [] else [p.publish])
    else if p.Pubrel? then
      match Unreleased(h[..|h| - 1], p.id)
      case None => []
      case Some(m) => [Released(m, p.id)]
    else []
  }

  function HandedOver(h: seq<Packet>): seq<PublishPacket> {
    if h == [] then [] else HandedOver(h[..|h| - 1]) + HandedBy(h)
  }

  /** `qos2_recv` is exactly the unreleased messages, each with its latest content. */
  lemma {:induction false} StoredIsUnreleased(h: seq<Packet>, id: U16)
    ensures id in Run(h).stored <==> Unreleased(h, id).Some?
    ensures id in Run(h).stored ==> Unreleased(h, id) == Some(Run(h).stored[id])
  {
    if h != [] {
      StoredIsUnreleased(h[..|h| - 1], id);
    }
  }

  /** The messages handed on are exactly those that the history releases, in its order. */
  lemma {:induction false} HandedIsReleased(h: seq<Packet>)
    ensures Run(h).handed == HandedOver(h)
  {
    hide Step, HandedBy;
    if h != [] {
      HandedIsReleased(h[..|h| - 1]);
      StepHands(h);
    }
  }

  lemma StepHands(h: seq<Packet>)
    requires h != []
    ensures Step(Run(h[..|h| - 1]), h[|h| - 1]).handed == Run(h[..|h| - 1]).handed + HandedBy(h)
  {
    hide Run, Unreleased;
    var g, p := h[..|h| - 1], h[|h| - 1];
    if p.Pubrel? {
      StoredIsUnreleased(g, p.id);
    }
    assert Run(g).handed + [] == Run(g).handed;
  }

  /** A message of QoS 0 or 1 is handed on as it came; only a PUBREL hands on anything else. */
  lemma HandedAtOnce(h: seq<Packet>, n: nat)
    requires n < |h| && !h[n].Pubrel?
    ensures Run(h[..n + 1]).handed
         == Run(h[..n]).handed + if h[n].Publish? && h[n].publish.qos.Level() < 2 then [h[n].publish] else []
  {
    hide Step, Unreleased;
    assert h[..n + 1][..n] == h[..n] && h[..n + 1][n] == h[n];
    StepHands(h[..n + 1]);
  }

  // ---------- the fate of one message ----------

  /** The position of the latest QoS 2 PUBLISH of `id` with no PUBREL of `id` after it. */
  function Holder(h: seq<Packet>, id: U16): (i: Option<nat>)
    ensures i.Some? ==> i.value < |h| && Opens(h[i.value], id)
  {
    if h == [] then None
    else if Opens(h[|h| - 1], id) then Some(|h| - 1)
    else if h[|h| - 1] == Pubrel(id) then None
    else Holder(h[..|h| - 1], id)
  }

  predicate Touches(p: Packet, id: U16) {
    Opens(p, id) || p == Pubrel(id)
  }

  predicate Quiet(h: seq<Packet>, i: nat, n: nat, id: U16) {
    forall j | i < j < n && j < |h| :: !Touches(h[j], id)
  }

  lemma {:induction false} HolderIs(h: seq<Packet>, id: U16, i: nat)
    requires i < |h|
    ensures Holder(h, id) == Some(i) <==> Opens(h[i], id) && Quiet(h, i, |h|, id)
  {
    hide Opens;
    var n := |h| - 1;
    if i < n {
      HolderIs(h[..n], id, i);
      QuietSnoc(h, i, id);
    }
  }

  lemma QuietSnoc(h: seq<Packet>, i: nat, id: U16)
    requires i < |h| - 1
    ensures Quiet(h, i, |h|, id) <==> Quiet(h[..|h| - 1], i, |h| - 1, id) && !Touches(h[|h| - 1], id)
  {
    hide Touches;
    var n := |h| - 1;
    var g := h[..n];
    assert forall j | 0 <= j < n :: g[j] == h[j];
    if Quiet(g, i, n, id) && !Touches(h[n], id) {
      forall j | i < j < |h|
        ensures !Touches(h[j], id)
      {
        assert j < n ==> !Touches(g[j], id);
      }
    }
  }

  lemma {:induction false} HolderIsUnreleased(h: seq<Packet>, id: U16)
    ensures Holder(h, id).Some? <==> Unreleased(h, id).Some?
    ensures Holder(h, id).Some? ==> Unreleased(h, id) == Some(h[Holder(h, id).value].publish)
  {
    if h != [] {
      HolderIsUnreleased(h[..|h| - 1], id);
    }
  }

  /** The PUBREL at `n` hands on the message that the PUBLISH at `i` brought. */
  predicate HandedAt(h: seq<Packet>, id: U16, i: nat, n: nat) {
    n < |h| && h[n] == Pubrel(id) && Holder(h[..n], id) == Some(i)
  }

  /** What a PUBREL hands on is the message of one PUBLISH, with its content; and nothing if there is none. */
  lemma HandedAtMeans(h: seq<Packet>, id: U16, n: nat)
    requires n < |h| && h[n] == Pubrel(id)
    ensures match Holder(h[..n], id)
            case None => HandedBy(h[..n + 1]) == []
            case Some(i) =>
              && HandedAt(h, id, i, n) && i < n && Opens(h[i], id)
              && HandedBy(h[..n + 1]) == [Released(h[i].publish, id)]
              && SameMessage(HandedBy(h[..n + 1])[0], h[i].publish, id)
  {
    hide Holder;
    assert h[..n + 1][..n] == h[..n] && h[..n + 1][n] == h[n];
    HolderIsUnreleased(h[..n], id);
  }

  /** The first packet after `i` that opens or releases `id`. */
  function Next(h: seq<Packet>, i: nat, id: U16): (n: Option<nat>)
    ensures n.Some? ==> i < n.value < |h| && Touches(h[n.value], id) && Quiet(h, i, n.value, id)
    ensures n.None? ==> Quiet(h, i, |h|, id)
    decreases |h| - i
  {
    if i + 1 >= |h| then None else if Touches(h[i + 1], id) then Some(i + 1) else Next(h, i + 1, id)
  }

  /** The message of the PUBLISH at `i` is no longer stored, and no PUBREL has handed it on. */
  predicate Lost(h: seq<Packet>, id: U16, i: nat) {
    Holder(h, id) != Some(i) && forall n | 0 <= n < |h| :: !HandedAt(h, id, i, n)
  }

  /**
    The fate of each QoS 2 message, for any history: stored until the next packet
    of its identifier, handed on once and with its content if that is a PUBREL,
    and lost if and only if it is another PUBLISH.
   */
  lemma FateExact(h: seq<Packet>, id: U16, i: nat)
    requires i < |h| && Opens(h[i], id)
    ensures Lost(h, id, i) <==> Next(h, i, id).Some? && Opens(h[Next(h, i, id).value], id)
    ensures Next(h, i, id).None? ==> id in Run(h).stored && Run(h).stored[id] == h[i].publish
    ensures Next(h, i, id).Some? ==>
              var n := Next(h, i, id).value;
              && (h[n] == Pubrel(id) ==>
                    && HandedBy(h[..n + 1]) == [Released(h[i].publish, id)]
                    && SameMessage(HandedBy(h[..n + 1])[0], h[i].publish, id))
              && (forall m | 0 <= m < |h| :: HandedAt(h, id, i, m) <==> m == n && h[n] == Pubrel(id))
  {
    hide Holder, HandedAt, HandedBy, Run, Next, Unreleased;
    HolderIs(h, id, i);
    HolderIsUnreleased(h, id);
    StoredIsUnreleased(h, id);
    forall m | 0 <= m < |h|
      ensures HandedAt(h, id, i, m) <==> i < m && h[m] == Pubrel(id) && Quiet(h, i, m, id)
    {
      HandedAtWhen(h, id, i, m);
    }
    if Next(h, i, id).Some? {
      var n := Next(h, i, id).value;
      assert Touches(h[n], id);
      if h[n] == Pubrel(id) {
        HandedAtMeans(h, id, n);
        assert Holder(h[..n], id) == Some(i) by { HandedAtHolder(h, id, i, n); }
      }
    }
  }

  lemma HandedAtWhen(h: seq<Packet>, id: U16, i: nat, m: nat)
    requires i < |h| && Opens(h[i], id) && m < |h|
    ensures HandedAt(h, id, i, m) <==> i < m && h[m] == Pubrel(id) && Quiet(h, i, m, id)
  {
    hide Holder;
    if i < m {
      HolderIs(h[..m], id, i);
      assert Quiet(h[..m], i, m, id) <==> Quiet(h, i, m, id);
    }
  }

  lemma HandedAtHolder(h: seq<Packet>, id: U16, i: nat, n: nat)
    requires HandedAt(h, id, i, n)
    ensures Holder(h[..n], id) == Some(i)
  {
  }

  // ---------- counting ----------

  function Openings(h: seq<Packet>, id: U16): nat {
    if h == [] then 0 else Openings(h[..|h| - 1], id) + if Opens(h[|h| - 1], id) then 1 else 0
  }

  function Releases(h: seq<Packet>, id: U16): nat {
    if h == [] then 0 else Releases(h[..|h| - 1], id) + if h[|h| - 1] == Pubrel(id) then 1 else 0
  }

  /** How many messages of this QoS and identifier are among those handed on. */
  function Deliveries(handed: seq<PublishPacket>, q: QoS, id: U16): nat {
    if handed == [] then 0
    else
      var m := handed[|handed| - 1];
      Deliveries(handed[..|handed| - 1], q, id) + if m.qos == q && m.packetId == Some(id) then 1 else 0
  }

  lemma DeliveriesAppend(handed: seq<PublishPacket>, m: PublishPacket, q: QoS, id: U16)
    ensures Deliveries(handed + [m], q, id)
         == Deliveries(handed, q, id) + if m.qos == q && m.packetId == Some(id) then 1 else 0
  {
    assert (handed + [m])[..|handed|] == handed;
  }

  /** A duplicate PUBLISH replaces the stored content instead of adding a message. */
  function Overwrites(h: seq<Packet>, id: U16): nat {
    if h == [] then 0
    else Overwrites(h[..|h| - 1], id)
         + if Opens(h[|h| - 1], id) && Unreleased(h[..|h| - 1], id).Some? then 1 else 0
  }

  /**
    Conservation for one identifier: every QoS 2 PUBLISH is delivered once, is
    still stored, or was overwritten by a later PUBLISH before its PUBREL; and
    there are no more deliveries than PUBRELs.
   */
  lemma {:induction false} PublishesConserved(h: seq<Packet>, id: U16)
    ensures Openings(h, id)
         == Deliveries(Run(h).handed, ExactlyOnce, id) + Overwrites(h, id) + (if id in Run(h).stored then 1 else 0)
    ensures Deliveries(Run(h).handed, ExactlyOnce, id) <= Releases(h, id)
  {
    hide Deliveries;
    if h == [] {
      NoDeliveries(ExactlyOnce, id);
    } else {
      var g, p := h[..|h| - 1], h[|h| - 1];
      var s := Run(g);
      PublishesConserved(g, id);
      StoredIsUnreleased(g, id);
      StoredIsQos2(g);
      match p {
        case Publish(m) =>
          DeliveriesAppend(s.handed, m, ExactlyOnce, id);
        case Pubrel(i) =>
          if i in s.stored {
            DeliveriesAppend(s.handed, Released(s.stored[i], i), ExactlyOnce, id);
          }
        case _ =>
      }
    }
  }

  lemma NoDeliveries(q: QoS, id: U16)
    ensures Deliveries([], q, id) == 0
  {
  }

  lemma {:induction false} StoredIsQos2(h: seq<Packet>)
    ensures forall id | id in Run(h).stored :: Run(h).stored[id].qos.ExactlyOnce?
  {
    if h != [] {
      StoredIsQos2(h[..|h| - 1]);
    }
  }

  /** The packet is a QoS 1 PUBLISH with this identifier. */
  predicate Posts(p: Packet, id: U16) {
    p.Publish? && p.publish.qos.AtLeastOnce? && p.publish.packetId == Some(id)
  }

  function Postings(h: seq<Packet>, id: U16): nat {
    if h == [] then 0 else Postings(h[..|h| - 1], id) + if Posts(h[|h| - 1], id) then 1 else 0
  }

  /** Every QoS 1 PUBLISH is handed on, as often as it arrives. */
  lemma {:induction false} PostsHanded(h: seq<Packet>, id: U16)
    ensures Deliveries(Run(h).handed, AtLeastOnce, id) == Postings(h, id)
  {
    hide Deliveries;
    if h == [] {
      NoDeliveries(AtLeastOnce, id);
    } else {
      var g, p := h[..|h| - 1], h[|h| - 1];
      var s := Run(g);
      PostsHanded(g, id);
      StoredIsQos2(g);
      match p {
        case Publish(m) =>
          DeliveriesAppend(s.handed, m, AtLeastOnce, id);
        case Pubrel(i) =>
          if i in s.stored {
            DeliveriesAppend(s.handed, Released(s.stored[i], i), AtLeastOnce, id);
          }
        case _ =>
      }
    }
  }

  function PubackIds(s: seq<Packet>): seq<U16> {
    if s == [] then [] else PubackIds(s[..|s| - 1]) + if s[|s| - 1].Puback? then [s[|s| - 1].id] else []
  }

  function PostedIds(h: seq<Packet>): seq<U16> {
    if h == [] then []
    else
      var p := h[|h| - 1];
      PostedIds(h[..|h| - 1])
      + if p.Publish? && p.publish.qos.AtLeastOnce? && p.publish.packetId.Some? then [p.publish.packetId.value] else []
  }

  function PubrecIds(s: seq<Packet>): seq<U16> {
    if s == [] then [] else PubrecIds(s[..|s| - 1]) + if s[|s| - 1].Pubrec? then [s[|s| - 1].id] else []
  }

  function PubcompIds(s: seq<Packet>): seq<U16> {
    if s == [] then [] else PubcompIds(s[..|s| - 1]) + if s[|s| - 1].Pubcomp? then [s[|s| - 1].id] else []
  }

  function OpenedIds(h: seq<Packet>): seq<U16> {
    if h == [] then []
    else
      var p := h[|h| - 1];
      OpenedIds(h[..|h| - 1])
      + if p.Publish? && p.publish.qos.ExactlyOnce? && p.publish.packetId.Some? then [p.publish.packetId.value] else []
  }

  function ReleasedIds(h: seq<Packet>): seq<U16> {
    if h == [] then [] else ReleasedIds(h[..|h| - 1]) + if h[|h| - 1].Pubrel? then [h[|h| - 1].id] else []
  }

  /** The identifiers of the PUBRELs in `s`; a PUBREC received asks for one. */
  function PubrelIds(s: seq<Packet>): seq<U16> {
    if s == [] then [] else PubrelIds(s[..|s| - 1]) + if s[|s| - 1].Pubrel? then [s[|s| - 1].id] else []
  }

  function Times(s: seq<Packet>, p: Packet): nat {
    multiset(s)[p]
  }

  /** Every PUBREC is answered by one PUBREL of its identifier, in order, and every PINGREQ by one PINGRESP. */
  lemma {:induction false} RequestsAnswered(h: seq<Packet>)
    ensures PubrelIds(Run(h).outbox) == PubrecIds(h)
    ensures Times(Run(h).outbox, Pingresp) == Times(h, Pingreq)
  {
    hide Step, PubrelIds, Times, Reply;
    if h == [] {
      NoneAnswered();
    } else {
      var g, p := h[..|h| - 1], h[|h| - 1];
      var s := Run(g);
      RequestsAnswered(g);
      StepReplies(s, p);
      AnswerAdded(s.outbox, p);
      TimesAdded(g, p, Pingreq);
      assert h == g + [p];
    }
  }

  lemma NoneAnswered()
    ensures PubrelIds([]) == [] && Times([], Pingresp) == Times([], Pingreq) == 0
  {
  }

  /** A reply is at most one packet: a PUBREL exactly for a PUBREC, a PINGRESP exactly for a PINGREQ. */
  lemma ReplyShape(p: Packet)
    ensures Reply(p) == [] || |Reply(p)| == 1
    ensures p.Pubrec? ==> Reply(p) == [Pubrel(p.id)]
    ensures p.Pingreq? ==> Reply(p) == [Pingresp]
    ensures Reply(p) != [] ==> (Reply(p)[0].Pubrel? <==> p.Pubrec?) && (Reply(p)[0].Pingresp? <==> p.Pingreq?)
  {
  }

  lemma AnswerAdded(out: seq<Packet>, p: Packet)
    ensures PubrelIds(out + Reply(p)) == PubrelIds(out) + if p.Pubrec? then [p.id] else []
    ensures Times(out + Reply(p), Pingresp) == Times(out, Pingresp) + (if p.Pingreq? then 1 else 0)
  {
    hide Reply, PubrelIds, Times;
    ReplyShape(p);
    if Reply(p) == [] {
      assert out + [] == out;
    } else {
      assert Reply(p) == [Reply(p)[0]];
      PubrelAdded(out, Reply(p)[0]);
      TimesAdded(out, Reply(p)[0], Pingresp);
    }
  }

  lemma PubrelAdded(out: seq<Packet>, q: Packet)
    ensures PubrelIds(out + [q]) == PubrelIds(out) + if q.Pubrel? then [q.id] else []
  {
    assert (out + [q])[..|out|] == out;
  }

  lemma TimesAdded(s: seq<Packet>, q: Packet, p: Packet)
    ensures Times(s + [q], p) == Times(s, p) + (if q == p then 1 else 0)
  {
  }

  /**
    With the writer stopped: nothing is queued; a QoS 1 message with an identifier
    is not handed on, a QoS 0 one is; a QoS 2 message is stored; and a PUBREL
    still hands its message on.
   */
  lemma UnsentMeans(s: State, p: Packet)
    ensures Unsent(s, p).outbox == s.outbox
    ensures p.Publish? && p.publish.qos.AtLeastOnce? && p.publish.packetId.Some? ==> Unsent(s, p) == s
    ensures p.Publish? && p.publish.qos.AtMostOnce? ==>
              Unsent(s, p).handed == s.handed + [p.publish] && Unsent(s, p).stored == s.stored
    ensures forall id | Opens(p, id) ::
              Unsent(s, p).stored == s.stored[id := p.publish] && Unsent(s, p).handed == s.handed
    ensures forall id | p == Pubrel(id) ::
              && Unsent(s, p).stored == s.stored - {id}
              && |Unsent(s, p).handed| == |s.handed| + (if id in s.stored then 1 else 0)
              && (id in s.stored ==> SameMessage(Unsent(s, p).handed[|s.handed|], s.stored[id], id))
  {
  }

  lemma StepReplies(s: State, p: Packet)
    ensures Step(s, p).outbox == s.outbox + Reply(p)
  {
    assert s.outbox + [] == s.outbox;
  }

  lemma IdsAppend(out: seq<Packet>, p: Packet)
    ensures PubackIds(out + [p]) == PubackIds(out) + if p.Puback? then [p.id] else []
    ensures PubrecIds(out + [p]) == PubrecIds(out) + if p.Pubrec? then [p.id] else []
    ensures PubcompIds(out + [p]) == PubcompIds(out) + if p.Pubcomp? then [p.id] else []
  {
    assert (out + [p])[..|out|] == out;
  }

  /**
    Every QoS 1 PUBLISH is answered by one PUBACK, every QoS 2 PUBLISH by one
    PUBREC and every PUBREL by one PUBCOMP, in order.
   */
  lemma {:induction false} EveryPhaseAnswered(h: seq<Packet>)
    ensures PubackIds(Run(h).outbox) == PostedIds(h)
    ensures PubrecIds(Run(h).outbox) == OpenedIds(h)
    ensures PubcompIds(Run(h).outbox) == ReleasedIds(h)
  {
    hide Step, PubackIds, PubrecIds, PubcompIds;
    if h == [] {
      NoIds();
    } else {
      var s, p := Run(h[..|h| - 1]), h[|h| - 1];
      EveryPhaseAnswered(h[..|h| - 1]);
      StepReplies(s, p);
      if Reply(p) == [] {
        assert s.outbox + [] == s.outbox;
      } else {
        IdsAppend(s.outbox, Reply(p)[0]);
      }
    }
  }

  lemma NoIds()
    ensures PubackIds([]) == [] && PubrecIds([]) == [] && PubcompIds([]) == []
  {
  }
}
