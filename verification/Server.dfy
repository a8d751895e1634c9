/**
  One server connection at work: each inbound packet drives the receiver, the
  endpoint chain and the broker together.
 */
module Server {
  import opened Wire
  import opened Packets
  import opened Subscriptions
  import opened Fanout
  import opened Receiver
  import opened BrokerState
  import Outbound
  import Topic

  // ---------- the endpoint chain ----------

  /** What running one endpoint gives: an error, or its fanout decision and the message it leaves, if any. */
  datatype Outcome = Broken | Done(fanout: bool, incoming: Option<PublishPacket>)

  type Endpoint = PublishPacket -> Outcome

  /** An endpoint may change everything but dup and the identifier, which belong to the wire. */
  function Carried(current: PublishPacket, o: Outcome): PublishPacket {
    if o.Done? && o.incoming.Some? then o.incoming.value.(dup := current.dup, packetId := current.packetId) else current
  }

  /** The message that the endpoint after the first `n` sees. */
  function Seen(endpoints: seq<Endpoint>, publish: PublishPacket, n: nat): PublishPacket
    requires n <= |endpoints|
  {
    if n == 0 then publish
    else
      var current := Seen(endpoints, publish, n - 1);
      Carried(current, endpoints[n - 1](current))
  }

  predicate Passes(endpoints: seq<Endpoint>, publish: PublishPacket, i: nat)
    requires i < |endpoints|
  {
    var o := endpoints[i](Seen(endpoints, publish, i));
    o.Done? && o.fanout
  }

  /** The packet to fan out: the last message, unless some endpoint failed or suppressed it. */
  function Chained(endpoints: seq<Endpoint>, publish: PublishPacket): Option<PublishPacket> {
    if forall i | 0 <= i < |endpoints| :: Passes(endpoints, publish, i)
    then Some(Seen(endpoints, publish, |endpoints|)) else None
  }

  /** The messages that the endpoints see one after the other, the one left at the end included. */
  ghost predicate Threads(seen: seq<PublishPacket>, endpoints: seq<Endpoint>, publish: PublishPacket) {
    && |seen| == |endpoints| + 1 && seen[0] == publish
    && forall i | 0 <= i < |endpoints| :: Leaves(seen[i], endpoints[i](seen[i]), seen[i + 1])
  }

  /** The message after an endpoint: its own, with dup and the identifier of the one before, or the one before. */
  predicate Leaves(before: PublishPacket, o: Outcome, after: PublishPacket) {
    match o
    case Broken => after == before
    case Done(_, None) => after == before
    case Done(_, Some(inc)) =>
      && after.properties == inc.properties && after.topic == inc.topic && after.payload == inc.payload
      && after.qos == inc.qos && after.retain == inc.retain
      && after.dup == before.dup && after.packetId == before.packetId
  }

  /**
    What the chain decides: each endpoint sees what the one before it left, the
    changes of every endpoint are carried on, and the last message is fanned out
    if and only if every endpoint succeeded and agreed.
   */
  lemma ChainedMeans(endpoints: seq<Endpoint>, publish: PublishPacket) returns (seen: seq<PublishPacket>)
    ensures Threads(seen, endpoints, publish)
    ensures Chained(endpoints, publish).Some? <==>
              forall i | 0 <= i < |endpoints| :: endpoints[i](seen[i]).Done? && endpoints[i](seen[i]).fanout
    ensures Chained(endpoints, publish).Some? ==> Chained(endpoints, publish).value == seen[|endpoints|]
  {
    hide Seen, Leaves;
    seen := seq(|endpoints| + 1, i requires 0 <= i <= |endpoints| => Seen(endpoints, publish, i));
    SeenFirst(endpoints, publish);
    forall i | 0 <= i < |endpoints|
      ensures Leaves(seen[i], endpoints[i](seen[i]), seen[i + 1])
    {
      SeenNext(endpoints, publish, i);
    }
    assert forall i | 0 <= i < |endpoints| ::
        Passes(endpoints, publish, i) <==> endpoints[i](seen[i]).Done? && endpoints[i](seen[i]).fanout;
  }

  lemma SeenFirst(endpoints: seq<Endpoint>, publish: PublishPacket)
    ensures Seen(endpoints, publish, 0) == publish
  {
  }

  lemma SeenNext(endpoints: seq<Endpoint>, publish: PublishPacket, i: nat)
    requires i < |endpoints|
    ensures var before := Seen(endpoints, publish, i);
            Leaves(before, endpoints[i](before), Seen(endpoints, publish, i + 1))
  {
  }

  method RunServerChainThenDecideFanout(endpoints: seq<Endpoint>, publish: PublishPacket) returns (r: Option<PublishPacket>)
    ensures r == Chained(endpoints, publish)
    ensures r.Some? ==> r.value.dup == publish.dup && r.value.packetId == publish.packetId
  {
    var fanout, current := true, publish;
    for n := 0 to |endpoints|
      invariant current == Seen(endpoints, publish, n)
      invariant current.dup == publish.dup && current.packetId == publish.packetId
      invariant fanout <==> forall i | 0 <= i < n :: Passes(endpoints, publish, i)
    {
      match endpoints[n](current) {
        case Done(agrees, incoming) =>
          if !agrees {
            fanout := false;
          }
          if incoming.Some? {
            var inc := incoming.value;
            current := PublishPacket(inc.properties, inc.topic, inc.payload, current.dup, inc.qos, inc.retain, current.packetId);
          }
        case Broken =>
          fanout := false;
      }
      assert (forall i | 0 <= i < n + 1 :: Passes(endpoints, publish, i))
        <==> (forall i | 0 <= i < n :: Passes(endpoints, publish, i)) && Passes(endpoints, publish, n);
    }
    r := if fanout then Some(current) else None;
  }

  // ---------- dispatch ----------

  type Routes = Bytes -> seq<Endpoint>

  /** What the chain lets through of the messages handed to it, in order. */
  function Fanned(routes: Routes, handed: seq<PublishPacket>): seq<PublishPacket> {
    if handed == [] then []
    else
      var m := handed[|handed| - 1];
      Fanned(routes, handed[..|handed| - 1]) + Listed(Chained(routes(m.topic), m))
  }

  function Listed<T>(o: Option<T>): seq<T> {
    if o.Some? then [o.value] else []
  }

  /** What the chain lets through of the message handed on last, if one was. */
  function LetThrough(routes: Routes, before: seq<PublishPacket>, after: seq<PublishPacket>): Option<PublishPacket> {
    if |after| <= |before| then None else Chained(routes(after[|before|].topic), after[|before|])
  }

  /** The connection's state is what its history says: what waits for a PUBREL, what was handed on, what was answered. */
  ghost predicate Tracks(s: State, h: seq<Packet>) {
    && s.stored == Receiver.Run(h).stored
    && s.handed == HandedOver(h)
    && PubackIds(s.outbox) == PostedIds(h)
    && PubrecIds(s.outbox) == OpenedIds(h)
    && PubcompIds(s.outbox) == ReleasedIds(h)
  }

  /** The packets that arrive after the writer has stopped. */
  function UnsentAll(s: State, late: seq<Packet>): State {
    if late == [] then s else Unsent(UnsentAll(s, late[..|late| - 1]), late[|late| - 1])
  }

  lemma TracksStep(s: State, h: seq<Packet>, p: Packet)
    requires Tracks(s, h)
    ensures Tracks(Receiver.Step(s, p), h + [p])
    ensures Receiver.Step(s, p).outbox == s.outbox + Reply(p)
  {
    hide PubackIds, PubrecIds, PubcompIds, HandedOver, HandedBy, Receiver.Step;
    assert (h + [p])[..|h|] == h;
    HandedIsReleased(h);
    HandedIsReleased(h + [p]);
    StepAgrees(s, Receiver.Run(h), p);
    StepReplies(s, p);
    if Reply(p) == [] {
      assert s.outbox + [] == s.outbox;
    } else {
      IdsAppend(s.outbox, Reply(p)[0]);
    }
  }

  lemma StepAgrees(s: State, t: State, p: Packet)
    requires s.stored == t.stored && s.handed == t.handed
    ensures Receiver.Step(s, p).stored == Receiver.Step(t, p).stored && Receiver.Step(s, p).handed == Receiver.Step(t, p).handed
  {
  }

  /** The replies to SUBSCRIBE and UNSUBSCRIBE come from the broker and are no part of the handshakes. */
  lemma TracksReply(s: State, h: seq<Packet>, p: Packet, reply: Packet)
    requires Tracks(s, h) && (p.Subscribe? || p.Unsubscribe?) && (reply.Suback? || reply.Unsuback?)
    ensures Tracks(s.(outbox := s.outbox + [reply]), h + [p])
  {
    hide PubackIds, PubrecIds, PubcompIds, HandedOver;
    TracksStep(s, h, p);
    IdsAppend(s.outbox, reply);
    assert s.outbox + [] == s.outbox;
  }

  /** One packet hands on at most one message. */
  lemma HandsOne(s: State, p: Packet)
    ensures var t := Receiver.Step(s, p); s.handed <= t.handed && |t.handed| <= |s.handed| + 1
    ensures var t := Unsent(s, p); s.handed <= t.handed && |t.handed| <= |s.handed| + 1
  {
  }

  lemma FannedSnoc(routes: Routes, before: seq<PublishPacket>, after: seq<PublishPacket>)
    requires before <= after && |after| <= |before| + 1
    ensures Fanned(routes, after) == Fanned(routes, before) + Listed(LetThrough(routes, before, after))
  {
    hide Chained;
    if |after| == |before| {
      assert after == before;
    } else {
      assert after[..|before|] == before;
    }
  }

  lemma UnsentSnoc(s: State, late: seq<Packet>, p: Packet)
    ensures UnsentAll(s, late + [p]) == Unsent(UnsentAll(s, late), p)
  {
    assert (late + [p])[..|late|] == late;
  }

  function FiltersOf(subs: seq<TopicSubscription>): seq<TopicFilter> {
    seq(|subs|, i requires 0 <= i < |subs| => TopicFilter(subs[i].topic, subs[i].qos))
  }

  /** The index operation that a packet asks for. */
  function IndexEvents(client: ClientId, packet: Packet): seq<Event> {
    match packet
    case Subscribe(_, subs) => [Subscribing(client, FiltersOf(subs))]
    case Unsubscribe(_, topics) => [Unsubscribing(client, topics)]
    case _ => []
  }

  /** SUBSCRIBE and UNSUBSCRIBE change what the history grants to the client just as they say, and nothing else. */
  lemma IndexEventsMean(h: seq<Event>, client: ClientId, packet: Packet, f: Filter, c: ClientId)
    ensures packet.Unsubscribe? ==>
              Grant(h + IndexEvents(client, packet), f, c)
              == if c == client && f in packet.topics then None else Grant(h, f, c)
    ensures packet.Subscribe? && (c != client || Registration(h, c).None? || !Topic.ValidFilter(f)
                                  || forall s | s in packet.subscriptions :: s.topic != f) ==>
              Grant(h + IndexEvents(client, packet), f, c) == Grant(h, f, c)
    ensures packet.Subscribe? && c == client && Registration(h, c).Some? && Topic.ValidFilter(f) ==>
              forall i | 0 <= i < |packet.subscriptions| && packet.subscriptions[i].topic == f
                         && (forall j | i < j < |packet.subscriptions| :: packet.subscriptions[j].topic != f) ::
                Grant(h + IndexEvents(client, packet), f, c) == Some(packet.subscriptions[i].qos)
    ensures !packet.Subscribe? && !packet.Unsubscribe? ==> IndexEvents(client, packet) == []
  {
    hide Topic.ValidFilter, Registration;
    if packet.Subscribe? {
      var subs := packet.subscriptions;
      assert (h + IndexEvents(client, packet))[..|h|] == h;
      if forall s | s in subs :: s.topic != f {
        NoGrant(subs, f);
      }
      forall i | Topic.ValidFilter(f) && 0 <= i < |subs| && subs[i].topic == f
                 && (forall j | i < j < |subs| :: subs[j].topic != f)
        ensures GrantIn(FiltersOf(subs), f) == Some(subs[i].qos)
      {
        LastGrant(subs, f, i);
      }
      GrantValid(FiltersOf(subs), f);
    } else if packet.Unsubscribe? {
      assert (h + IndexEvents(client, packet))[..|h|] == h;
    }
  }

  lemma {:induction false} NoGrant(subs: seq<TopicSubscription>, f: Filter)
    requires forall s | s in subs :: s.topic != f
    ensures GrantIn(FiltersOf(subs), f).None?
    decreases |subs|
  {
    hide Topic.ValidFilter;
    if subs != [] {
      var front := subs[..|subs| - 1];
      assert FiltersOf(subs)[..|subs| - 1] == FiltersOf(front);
      assert subs[|subs| - 1] in subs;
      NoGrant(front, f);
    }
  }

  lemma {:induction false} LastGrant(subs: seq<TopicSubscription>, f: Filter, i: nat)
    requires Topic.ValidFilter(f) && i < |subs| && subs[i].topic == f
    requires forall j | i < j < |subs| :: subs[j].topic != f
    ensures GrantIn(FiltersOf(subs), f) == Some(subs[i].qos)
    decreases |subs|
  {
    hide Topic.ValidFilter;
    if i < |subs| - 1 {
      var front := subs[..|subs| - 1];
      assert FiltersOf(subs)[..|subs| - 1] == FiltersOf(front);
      LastGrant(front, f, i);
    }
  }

  /** PUBACK and PUBCOMP settle the identifier on the connection that the client's session is bound to. */
  function AfterAck(ix: Index, channels: Channels, client: ClientId, id: U16): Channels {
    if client in ix.sessions && ix.sessions[client].channel in channels then
      var k := ix.sessions[client].channel;
      channels[k := Outbound.Step(channels[k], Outbound.Acked(id))]
    else channels
  }

  /** The identifier leaves the table of that one connection, and nothing else changes. */
  lemma AfterAckMeans(ix: Index, channels: Channels, client: ClientId, id: U16, k: nat)
    requires k in channels
    ensures var r := AfterAck(ix, channels, client, id);
            && r.Keys == channels.Keys
            && (client in ix.sessions && ix.sessions[client].channel == k ==>
                  && id !in r[k].inflight
                  && (forall i | i != id :: (i in r[k].inflight <==> i in channels[k].inflight)
                                            && (i in r[k].inflight ==> r[k].inflight[i] == channels[k].inflight[i]))
                  && r[k].outbox == channels[k].outbox && r[k].issued == channels[k].issued)
            && (!(client in ix.sessions && ix.sessions[client].channel == k) ==> r[k] == channels[k])
  {
  }

  /** The queues may be fanned out to: every session has its connection, and `order` lists the matching pairs. */
  ghost predicate CanFan(routes: Routes, ix: Index, channels: Channels, before: seq<PublishPacket>,
                         after: seq<PublishPacket>, order: seq<Pair>)
  {
    var fan := LetThrough(routes, before, after);
    fan.Some? ==>
      Bound(ix, channels) && Enumerates(order, MatchSet(ix.subs, fan.value.topic)) && Within(ix.subs, order)
  }

  /** The connections after a packet whose handling takes the messages handed on from `before` to `after`. */
  ghost function ChannelsAfter(client: ClientId, routes: Routes, ix: Index, channels: Channels, before: seq<PublishPacket>,
                               after: seq<PublishPacket>, packet: Packet, order: seq<Pair>): Channels
    requires CanFan(routes, ix, channels, before, after, order)
  {
    match LetThrough(routes, before, after)
    case Some(p) => FanAll(ix, channels, client, p, TargetsOf(ix.subs, order))
    case None => if packet.Puback? || packet.Pubcomp? then AfterAck(ix, channels, client, packet.id) else channels
  }

  /** The codes of a SUBACK: granted as asked, if the client has a session and the filter is valid. */
  predicate Answers(codes: seq<SubackCode>, subs: seq<TopicSubscription>, h: seq<Event>, client: ClientId) {
    && |codes| == |subs|
    && forall i | 0 <= i < |codes| ::
         codes[i] == if Registration(h, client).Some? && Topic.ValidFilter(subs[i].topic) then Granted(subs[i].qos) else Failure
  }

  /** The packet is answered, here or by the broker. */
  predicate Answered(p: Packet) {
    p.Subscribe? || p.Unsubscribe? || Reply(p) != []
  }

  class Handler {
    const conn: ServerConnection
    const broker: Broker
    const client: ClientId
    const routes: Routes
    ghost var trace: seq<Packet>             // the packets received while the writer ran
    ghost var late: seq<Packet>              // those received after it stopped
    ghost var live: State                    // the connection when it stopped, or now
    ghost var published: seq<PublishPacket>  // the packets given to the broker

    /**
      Over any history the connection is what the history says, and the broker
      was given exactly what the chain lets through of the messages handed on.
     */
    ghost predicate Valid()
      reads this, conn, broker
    {
      && broker.Valid()
      && Tracks(live, trace) && conn.View() == UnsentAll(live, late) && (conn.receiving ==> late == [])
      && published == Fanned(routes, conn.handed)
    }

    constructor (conn: ServerConnection, broker: Broker, client: ClientId, routes: Routes)
      requires conn.View() == FRESH && broker.Valid()
      ensures Valid() && trace == [] && late == [] && this.conn == conn && this.broker == broker
      ensures this.client == client && this.routes == routes
    {
      this.conn, this.broker, this.client, this.routes := conn, broker, client, routes;
      trace, late, live, published := [], [], FRESH, [];
    }

    method DispatchServerInbound(packet: Packet) returns (r: Result<()>, ghost order: seq<Pair>)
      requires Valid()
      modifies this, conn, broker
      ensures Valid() && conn.receiving == old(conn.receiving)
      ensures if conn.receiving then trace == old(trace) + [packet] else trace == old(trace) && late == old(late) + [packet]
      ensures r == if packet.Connect? then Err(SessionAlreadyBound)
                   else if !conn.receiving && Answered(packet) then Err(ChannelClosed) else Ok(())
      ensures broker.history == old(broker.history) + IndexEvents(client, packet)
      ensures packet.Subscribe? && conn.receiving ==>
                && |conn.outbox| == |old(conn.outbox)| + 1 && old(conn.outbox) <= conn.outbox
                && var reply := conn.outbox[|old(conn.outbox)|];
                && reply.Suback? && reply.id == packet.id
                && Answers(reply.returnCodes, packet.subscriptions, old(broker.history), client)
      ensures packet.Unsubscribe? && conn.receiving ==>
                conn.outbox == old(conn.outbox) + [Unsuback(packet.id, seq(|packet.topics|, _ => 0x00))]
      ensures !packet.Subscribe? && !packet.Unsubscribe? && conn.receiving ==> conn.outbox == old(conn.outbox) + Reply(packet)
      ensures !conn.receiving ==> conn.outbox == old(conn.outbox)
      ensures published == old(published) + Listed(LetThrough(routes, old(conn.handed), conn.handed))
      ensures CanFan(routes, old(broker.View()), old(broker.channels), old(conn.handed), conn.handed, order)
      ensures broker.channels
           == ChannelsAfter(client, routes, old(broker.View()), old(broker.channels), old(conn.handed), conn.handed, packet, order)
    {
      hide Replay, Bound, FanAll, Enumerates, MatchSet, Within, TargetsOf, Fanned, Tracks, Chained, UnsentAll,
           Registration, Topic.ValidFilter, Lined, AllWaited, Receiver.Run, Receiver.Step, Outbound.Step;
      r, order := Ok(()), [];
      if packet.Subscribe? {
        var codes := broker.Subscribe(client, FiltersOf(packet.subscriptions));
        r := Answer(packet, Suback(packet.id, codes));
      } else if packet.Unsubscribe? {
        broker.Unsubscribe(client, packet.topics);
        r := Answer(packet, Unsuback(packet.id, seq(|packet.topics|, _ => 0x00)));
      } else if packet.Puback? || packet.Pubcomp? {
        broker.AckOutbound(client, packet.id);
        RecordQuiet(packet);
      } else if packet.Connect? {
        r := Err(SessionAlreadyBound);
        RecordQuiet(packet);
      } else {
        r, order := ReceiveAndFanOut(packet);
      }
    }

    /** The connection's own branches, with the chain and the fanout for a message that is handed on. */
    method ReceiveAndFanOut(packet: Packet) returns (r: Result<()>, ghost order: seq<Pair>)
      requires Valid()
      modifies this, conn`outbox, conn`qos2Recv, conn`handed, broker`channels, broker`traces
      ensures Valid()
      ensures if conn.receiving then trace == old(trace) + [packet] else trace == old(trace) && late == old(late) + [packet]
      ensures r == if !conn.receiving && Reply(packet) != [] then Err(ChannelClosed) else Ok(())
      ensures conn.outbox == if conn.receiving then old(conn.outbox) + Reply(packet) else old(conn.outbox)
      ensures published == old(published) + Listed(LetThrough(routes, old(conn.handed), conn.handed))
      ensures CanFan(routes, broker.View(), old(broker.channels), old(conn.handed), conn.handed, order)
      ensures !packet.Puback? && !packet.Pubcomp? ==>
                broker.channels == ChannelsAfter(client, routes, broker.View(), old(broker.channels), old(conn.handed),
                                                 conn.handed, packet, order)
    {
      hide Replay, Bound, FanAll, Enumerates, MatchSet, Within, TargetsOf, Fanned, Tracks, Chained, UnsentAll,
           Lined, AllWaited, Receiver.Run, Receiver.Step, Unsent, Reply;
      order := [];
      TracksStep(live, trace, packet);
      NothingLate();
      UnsentSnoc(live, late, packet);
      HandsOne(conn.View(), packet);
      UnsentOutbox(conn.View(), packet);
      var before := |conn.handed|;
      r := conn.Receive(packet);
      FannedSnoc(routes, old(conn.handed), conn.handed);
      Record(packet);
      if |conn.handed| > before {
        var m := conn.handed[before];
        var fanout := RunServerChainThenDecideFanout(routes(m.topic), m);
        if fanout.Some? {
          published := published + [fanout.value];
          order := broker.Publish(client, fanout.value);
        }
      }
    }

    /**
      The end of the handler. The first close of its connection `k` drops the
      stored messages, the inflight publishes and the waiting slots; what was
      handed on and answered stays.
     */
    method Close(k: nat)
      requires Valid() && k in broker.channels
      modifies conn`qos2Recv, broker`channels, broker`traces, broker`pendingAcks, broker`waits
      ensures broker.Valid() && broker.history == old(broker.history)
      ensures broker.channels == old(broker.channels)[k := Outbound.Step(old(broker.channels)[k], Outbound.Close)]
      ensures conn.View() == if old(broker.channels)[k].open then old(conn.View()).(stored := map[]) else old(conn.View())
    {
      hide Replay, Bound, Lined, AllWaited, Outbound.Step;
      var open := broker.channels[k].open;
      broker.CloseChannel(k);
      if open {
        conn.Abandon();
      }
    }

    /** The broker's answer to SUBSCRIBE or UNSUBSCRIBE. */
    method Answer(packet: Packet, reply: Packet) returns (r: Result<()>)
      requires Valid() && (packet.Subscribe? || packet.Unsubscribe?) && (reply.Suback? || reply.Unsuback?)
      modifies this, conn`outbox
      ensures Valid() && published == old(published)
      ensures if conn.receiving then trace == old(trace) + [packet] else trace == old(trace) && late == old(late) + [packet]
      ensures r == if conn.receiving then Ok(()) else Err(ChannelClosed)
      ensures conn.outbox == if conn.receiving then old(conn.outbox) + [reply] else old(conn.outbox)
    {
      hide Replay, Bound, Fanned, Tracks, UnsentAll, Lined, AllWaited, Receiver.Run;
      NothingLate();
      UnsentSnoc(live, late, packet);
      TracksReply(live, trace, packet, reply);
      ghost var v := conn.View();
      assert Unsent(v, packet) == v;
      r := conn.SendPacket(reply);
      assert conn.View() == if conn.receiving then v.(outbox := v.outbox + [reply]) else v;
      if conn.receiving {
        trace, live := trace + [packet], conn.View();
      } else {
        late := late + [packet];
      }
    }

    /** One more packet in the history that does not change the connection. */
    ghost method RecordQuiet(packet: Packet)
      requires Valid() && (packet.Puback? || packet.Pubcomp? || packet.Connect?)
      modifies this`trace, this`late, this`live
      ensures Valid()
      ensures if conn.receiving then trace == old(trace) + [packet] else trace == old(trace) && late == old(late) + [packet]
    {
      hide Replay, Bound, Fanned, Tracks, UnsentAll, Lined, AllWaited, Receiver.Run;
      TracksStep(live, trace, packet);
      NothingLate();
      UnsentSnoc(live, late, packet);
      Record(packet);
    }

    /** One more packet in the history. */
    ghost method Record(packet: Packet)
      modifies this`trace, this`late, this`live
      ensures if conn.receiving then trace == old(trace) + [packet] && live == conn.View() && late == old(late)
              else trace == old(trace) && late == old(late) + [packet] && live == old(live)
    {
      if conn.receiving {
        trace, live := trace + [packet], conn.View();
      } else {
        late := late + [packet];
      }
    }
  }

  lemma UnsentOutbox(s: State, p: Packet)
    ensures Unsent(s, p).outbox == s.outbox
  {
  }

  lemma NothingLate()
    ensures forall s: State :: UnsentAll(s, []) == s
  {
  }
}
