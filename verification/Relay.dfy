/**
  From one client's `send_publish` to the queues of the subscribers: the client's
  side of the handshake, the server connection that handles what it sends, and
  the broker, which other connections change at the same time.
 */
module Relay {
  import opened Wire
  import opened Packets
  import opened Subscriptions
  import opened Fanout
  import opened Server
  import BrokerState
  import Handshake
  import Outbound
  import Receiver

  /** One server connection and the broker's state. */
  datatype Sys = Sys(conn: Receiver.State, history: seq<Event>, channels: Channels)

  const START := Sys(Receiver.FRESH, [], map[])

  datatype Move =
    | Inbound(packet: Packet, order: seq<Pair>)  // the connection handles a packet; a fanout walks the pairs in this order
    | Open(k: nat)                               // a connection is accepted
    | Operate(operation: Event)                  // another connection's operation on the index
    | Outward(k: nat, event: Outbound.Event)     // what else happens to a connection, such as another's fanout

  ghost predicate Legal(client: ClientId, routes: Routes, s: Sys, m: Move) {
    Bound(Replay(s.history), s.channels) &&
    match m
    case Inbound(p, order) =>
      CanFan(routes, Replay(s.history), s.channels, s.conn.handed, Receiver.Step(s.conn, p).handed, order)
    case Open(k) => k !in s.channels
    case Operate(e) => e.Register? ==> e.channel in s.channels
    case Outward(k, _) => k in s.channels
  }

  /** A packet is handled as by `Server.Handler.DispatchServerInbound` while the writer runs. */
  ghost function Step(client: ClientId, routes: Routes, s: Sys, m: Move): Sys
    requires Legal(client, routes, s, m)
  {
    match m
    case Inbound(p, order) =>
      var conn := Receiver.Step(s.conn, p);
      Sys(conn, s.history + IndexEvents(client, p),
          ChannelsAfter(client, routes, Replay(s.history), s.channels, s.conn.handed, conn.handed, p, order))
    case Open(k) => s.(channels := s.channels[k := Outbound.FRESH])
    case Operate(e) => s.(history := s.history + [e])
    case Outward(k, e) => s.(channels := s.channels[k := Outbound.Step(s.channels[k], e)])
  }

  ghost predicate Possible(client: ClientId, routes: Routes, log: seq<Move>)
    decreases |log|, 0
  {
    log == [] ||
    (var n := |log| - 1;
     Possible(client, routes, log[..n]) && Legal(client, routes, Run(client, routes, log[..n]), log[n]))
  }

  ghost function Run(client: ClientId, routes: Routes, log: seq<Move>): Sys
    requires Possible(client, routes, log)
    decreases |log|, 1
  {
    if log == [] then START else var n := |log| - 1; Step(client, routes, Run(client, routes, log[..n]), log[n])
  }

  /** The packets that the connection has handled. */
  function Handled(log: seq<Move>): seq<Packet> {
    if log == [] then []
    else
      var m := log[|log| - 1];
      if m.Inbound? then Handled(log[..|log| - 1]) + [m.packet] else Handled(log[..|log| - 1])
  }

  /** The connection is what it has handled makes it. */
  lemma {:induction false} ConnIsRun(client: ClientId, routes: Routes, log: seq<Move>)
    requires Possible(client, routes, log)
    ensures Run(client, routes, log).conn == Receiver.Run(Handled(log))
    decreases |log|
  {
    hide Legal, Receiver.Step, ChannelsAfter;
    if log != [] {
      var n := |log| - 1;
      ConnIsRun(client, routes, log[..n]);
      if log[n].Inbound? {
        assert Handled(log)[..|Handled(log)| - 1] == Handled(log[..n]);
      }
    }
  }

  /** Every packet handled stands in the log. */
  lemma {:induction false} PacketAt(log: seq<Move>, n: nat) returns (j: nat)
    requires n < |Handled(log)|
    ensures j < |log| && log[j].Inbound? && log[j].packet == Handled(log)[n]
    ensures Handled(log[..j]) == Handled(log)[..n] && Handled(log[..j + 1]) == Handled(log)[..n + 1]
    decreases |log|
  {
    var last := |log| - 1;
    var front := log[..last];
    if n < |Handled(front)| {
      j := PacketAt(front, n);
      assert front[..j] == log[..j] && front[..j + 1] == log[..j + 1];
      assert Handled(log)[..n] == Handled(front)[..n] && Handled(log)[..n + 1] == Handled(front)[..n + 1];
    } else {
      j := last;
      assert log[..last + 1] == log;
      assert Handled(log)[..n] == Handled(front) && Handled(log)[..n + 1] == Handled(log);
    }
  }

  lemma {:induction false} PossiblePrefix(client: ClientId, routes: Routes, log: seq<Move>, j: nat)
    requires Possible(client, routes, log) && j <= |log|
    ensures Possible(client, routes, log[..j])
    decreases |log|
  {
    hide Legal, Step;
    if j < |log| {
      PossiblePrefix(client, routes, log[..|log| - 1], j);
      assert log[..|log| - 1][..j] == log[..j];
    } else {
      assert log[..j] == log;
    }
  }

  /** The restriction to bound sessions excludes nothing: it holds after every log. */
  lemma BoundAlways(client: ClientId, routes: Routes, log: seq<Move>)
    requires Possible(client, routes, log)
    ensures var s := Run(client, routes, log); Bound(Replay(s.history), s.channels)
  {
    hide Replay, Receiver.Step, FanAll, AfterAck, Outbound.Step;
    if log != [] {
      var n := |log| - 1;
      StepBound(client, routes, Run(client, routes, log[..n]), log[n]);
    } else {
      assert Replay([]).sessions == map[] by { NoEvents(); }
    }
  }

  lemma NoEvents()
    ensures Replay([]).sessions == map[]
  {
  }

  lemma StepBound(client: ClientId, routes: Routes, s: Sys, m: Move)
    requires Legal(client, routes, s, m)
    ensures var t := Step(client, routes, s, m); Bound(Replay(t.history), t.channels)
  {
    hide Replay, Receiver.Step, Outbound.Step, LetThrough, Enumerates, Within, TargetsOf;
    match m
    case Inbound(p, order) =>
      var events := IndexEvents(client, p);
      if events == [] {
        assert s.history + events == s.history;
      } else {
        BrokerState.ReplaySnoc(s.history, events[0]);
        BrokerState.StepKeepsBound(Replay(s.history), s.channels, events[0]);
      }
    case Operate(e) =>
      BrokerState.ReplaySnoc(s.history, e);
      BrokerState.StepKeepsBound(Replay(s.history), s.channels, e);
    case _ =>
  }

  // ---------- the message of a completed task, as the server handles it ----------

  lemma {:induction false} OpenTwice(h: seq<Packet>, id: U16, i: nat, n: nat)
    requires i < n < |h| && Receiver.Opens(h[i], id) && Receiver.Opens(h[n], id)
    ensures Receiver.Openings(h, id) >= 2
  {
    if n < |h| - 1 {
      OpenTwice(h[..|h| - 1], id, i, n);
    } else {
      Handshake.OpeningCounted(h[..n], id, i);
    }
  }

  /** The packet at `m` hands on a QoS 2 message of identifier `id`. */
  predicate HandsOn(h: seq<Packet>, m: nat, id: U16)
    requires m < |h|
  {
    exists x | x in Receiver.HandedBy(h[..m + 1]) :: x.qos.ExactlyOnce? && x.packetId == Some(id)
  }

  /** Opened once and later released, a message is handed on at one place only. */
  lemma HandedAtOnePlace(h: seq<Packet>, id: U16, i: nat, j: nat) returns (n: nat)
    requires i < j < |h| && Receiver.Opens(h[i], id) && h[j] == Pubrel(id) && Receiver.Openings(h, id) <= 1
    ensures n < |h| && h[n] == Pubrel(id)
    ensures Receiver.HandedBy(h[..n + 1]) == [Receiver.Released(h[i].publish, id)]
    ensures forall m | 0 <= m < |h| :: HandsOn(h, m, id) ==> m == n
  {
    hide Receiver.Openings, Receiver.HandedBy, Receiver.HandedAt, Receiver.Holder, Receiver.Run, Receiver.Lost, Receiver.Next;
    Receiver.FateExact(h, id, i);
    assert Receiver.Touches(h[j], id);
    n := Receiver.Next(h, i, id).value;
    if Receiver.Opens(h[n], id) {
      OpenTwice(h, id, i, n);
    }
    forall m | 0 <= m < |h| && HandsOn(h, m, id)
      ensures m == n
    {
      OnlyHolder(h, id, i, m);
    }
  }

  lemma OnlyHolder(h: seq<Packet>, id: U16, i: nat, m: nat)
    requires i < |h| && Receiver.Opens(h[i], id) && Receiver.Openings(h, id) <= 1
    requires m < |h| && HandsOn(h, m, id)
    ensures Receiver.HandedAt(h, id, i, m)
  {
    hide Receiver.Openings, Receiver.Holder, Receiver.Unreleased;
    assert h[..m + 1][m] == h[m];
    assert h[m] == Pubrel(id);
    Receiver.HandedAtMeans(h, id, m);
    var o := Receiver.Holder(h[..m], id).value;
    if o < i {
      OpenTwice(h, id, o, i);
    } else if i < o {
      OpenTwice(h, id, i, o);
    }
  }

  /** The server has handed on the message of a completed QoS 2 task at one place, as its own. */
  lemma CompletedHandedOnce(h: seq<Handshake.Action>, k: nat) returns (n: nat)
    requires Handshake.Legal(Handshake.START, h) && Handshake.After(Handshake.START, h).issued <= 65535
    requires var s := Handshake.After(Handshake.START, h);
             k in s.tasks && s.tasks[k].message.qos.ExactlyOnce? && s.tasks[k].phase.Completed?
    ensures var s := Handshake.After(Handshake.START, h);
            && k <= 65535 && s.served <= |s.sent|
            && var served := s.sent[..s.served];
            && n < |served| && served[n] == Pubrel(k)
            && Receiver.HandedBy(served[..n + 1]) == [Receiver.Released(s.tasks[k].message, k)]
            && Receiver.SameMessage(Receiver.HandedBy(served[..n + 1])[0], s.tasks[k].message, k)
            && forall m | 0 <= m < |served| :: HandsOn(served, m, k) ==> m == n
  {
    hide Handshake.Legal, Handshake.After, Handshake.Inv, Receiver.Openings, Receiver.HandedBy, Receiver.Opens, HandsOn;
    Handshake.StartInv();
    Handshake.RunKeeps(Handshake.START, h);
    var s := Handshake.After(Handshake.START, h);
    var i, j := CompletedReleased(s, k);
    OwnPublish(s, i, k);
    n := HandedAtOnePlace(s.sent[..s.served], k, i, j);
  }

  /** Before the PUBREL of a completed QoS 2 task the server has handled its one PUBLISH. */
  lemma CompletedReleased(s: Handshake.World, k: nat) returns (i: nat, j: nat)
    requires Handshake.Inv(s)
    requires k in s.tasks && s.tasks[k].message.qos.ExactlyOnce? && s.tasks[k].phase.Completed?
    ensures k <= 65535 && s.served <= |s.sent|
    ensures var served := s.sent[..s.served];
            i < j < |served| && Receiver.Opens(served[i], k) && served[j] == Pubrel(k) && Receiver.Openings(served, k) <= 1
  {
    hide Handshake.Inv, Receiver.Openings, Receiver.Postings, Receiver.Releases, Receiver.Run;
    Handshake.TaskBounds(s, k);
    var served := s.sent[..s.served];
    Handshake.ServedSound(s, k);
    Handshake.AnswersMean(served, k);
    Handshake.ReleaseFound(served, k);
    j :| 0 <= j < |served| && served[j] == Pubrel(k);
    i :| 0 <= i < j && Receiver.Opens(served[i], k);
  }

  lemma OwnPublish(s: Handshake.World, i: nat, k: U16)
    requires Handshake.Inv(s) && i < |s.sent| && Receiver.Opens(s.sent[i], k)
    ensures k in s.tasks && s.sent[i] == Handshake.OnWire(s.tasks[k].message, k) && s.sent[i].Publish?
    ensures Handshake.OnWire(s.tasks[k].message, k) == Publish(s.tasks[k].message.(packetId := Some(k)))
  {
    hide Handshake.TaskInv, Handshake.HeardInv, Receiver.Openings, Receiver.Postings, Handshake.OpensFirst;
    assert Handshake.Carries(s.sent[i], k);
    Handshake.TaskBounds(s, k);
  }

  // ---------- and as the subscribers get it ----------

  /**
    From `before` to `after` the queue of every connection whose writer runs grows
    by copies of `p`: for each QoS, one for each pair that the broker's history
    makes due at that QoS on that connection. No other queue changes.
   */
  ghost predicate Queued(before: Sys, after: Sys, client: ClientId, p: PublishPacket) {
    && after.channels.Keys == before.channels.Keys
    && forall c | c in before.channels ::
         var a, b := before.channels[c], after.channels[c];
         && a.outbox <= b.outbox
         && var ms := b.outbox[|a.outbox|..];
         && (!a.receiving ==> ms == [])
         && (forall m | m in ms :: CopyOf(m, p))
         && (a.receiving ==> forall q :: Count(Levels(ms), q) == |DuePairs(before.history, client, p, c, q)|)
  }

  predicate CopyOf(m: PublishPacket, p: PublishPacket) {
    && m.topic == p.topic && m.payload == p.payload && m.properties == p.properties && !m.dup && !m.retain
    && m.qos.Level() <= p.qos.Level()
    && (m.packetId.Some? <==> !m.qos.AtMostOnce?)
  }

  ghost function DuePairs(h: seq<Event>, client: ClientId, p: PublishPacket, c: nat, q: QoS): set<Pair> {
    set x | x in MatchSet(Replay(h).subs, p.topic) && Due(h, client, p, c, q, x)
  }

  lemma FanQueues(before: Sys, after: Sys, client: ClientId, p: PublishPacket, order: seq<Pair>)
    requires Bound(Replay(before.history), before.channels)
    requires Enumerates(order, MatchSet(Replay(before.history).subs, p.topic)) && Within(Replay(before.history).subs, order)
    requires var ix := Replay(before.history);
             after.channels == FanAll(ix, before.channels, client, p, TargetsOf(ix.subs, order))
    ensures Queued(before, after, client, p)
  {
    hide Replay, Due, MatchSet, FanAll, QosFor, Count, Outbound.Copies, Outbound.NumberedIn;
    var ix := Replay(before.history);
    forall c | c in before.channels
      ensures var a, b := before.channels[c], after.channels[c];
              && a.outbox <= b.outbox
              && var ms := b.outbox[|a.outbox|..];
              && (!a.receiving ==> ms == [])
              && (forall m | m in ms :: CopyOf(m, p))
              && (a.receiving ==> forall q :: Count(Levels(ms), q) == |DuePairs(before.history, client, p, c, q)|)
    {
      var a, b := before.channels[c], after.channels[c];
      var qs := QosFor(ix, client, p, c, TargetsOf(ix.subs, order));
      var copies := Outbound.Copies(p, qs, a.issued);
      forall q
        ensures b.outbox == (if a.receiving then a.outbox + copies else a.outbox)
        ensures forall m | m in copies :: CopyOf(m, p)
        ensures Count(Levels(copies), q) == |DuePairs(before.history, client, p, c, q)|
      {
        FanoutExact(before.history, before.channels, client, p, order, c, q);
        assert DuePairs(before.history, client, p, c, q) == set x | x in order && Due(before.history, client, p, c, q, x);
      }
      assert b.outbox == (if a.receiving then a.outbox + copies else a.outbox) && forall m | m in copies :: CopyOf(m, p) by {
        assert Count(Levels(copies), AtMostOnce) == |DuePairs(before.history, client, p, c, AtMostOnce)|;
      }
      assert b.outbox[|a.outbox|..] == if a.receiving then copies else [];
    }
  }

  /**
    End to end. If `send_publish` of a QoS 2 message has completed, then in every
    log of a server whose connection has handled what the client sent, there is
    one place at which the message is handed to the endpoint chain, as its own.
    If the chain lets it through, there and nowhere else it is queued, once for
    every pair that the broker's history makes due at that moment.
   */
  lemma CompletedIsQueued(h: seq<Handshake.Action>, k: nat, client: ClientId, routes: Routes, log: seq<Move>)
    returns (j: nat)
    requires Handshake.Legal(Handshake.START, h) && Handshake.After(Handshake.START, h).issued <= 65535
    requires var s := Handshake.After(Handshake.START, h);
             && k in s.tasks && s.tasks[k].message.qos.ExactlyOnce? && s.tasks[k].phase.Completed?
             && s.served <= |s.sent| && Handled(log) == s.sent[..s.served]
    requires Possible(client, routes, log)
    ensures k <= 65535 && j < |log| && log[j].Inbound? && log[j].packet == Pubrel(k)
    ensures Possible(client, routes, log[..j]) && Possible(client, routes, log[..j + 1])
    ensures var message := Handshake.After(Handshake.START, h).tasks[k].message;
            var own := Receiver.Released(message, k);
            var before, after := Run(client, routes, log[..j]), Run(client, routes, log[..j + 1]);
            && Receiver.SameMessage(own, message, k)
            && after.conn.handed == before.conn.handed + [own]
            && match Chained(routes(own.topic), own)
               case None => after.channels == before.channels
               case Some(p) => Queued(before, after, client, p)
    ensures forall i | 0 <= i < |log| && log[i].Inbound? && i != j :: !HandsOnAt(log, i, k)
  {
    hide Handshake.Legal, Handshake.After, Legal, Receiver.Run, Receiver.HandedBy, Receiver.HandedOver, Chained, Queued,
         HandsOn, Receiver.Released;
    var n := CompletedHandedOnce(h, k);
    j := PacketAt(log, n);
    PossiblePrefix(client, routes, log, j);
    PossiblePrefix(client, routes, log, j + 1);
    var own := Receiver.Released(Handshake.After(Handshake.START, h).tasks[k].message, k);
    InboundStep(client, routes, log, j, own);
    forall i | 0 <= i < |log| && log[i].Inbound? && i != j
      ensures !HandsOnAt(log, i, k)
    {
      OtherPlace(log, i, j, n, k);
    }
  }

  /** The packet at position `i` of the log hands on a QoS 2 message of identifier `id`. */
  predicate HandsOnAt(log: seq<Move>, i: nat, id: U16)
    requires i < |log|
  {
    log[i].Inbound? && Handled(log[..i + 1]) != [] && HandsOn(Handled(log[..i + 1]), |Handled(log[..i + 1])| - 1, id)
  }

  lemma InboundStep(client: ClientId, routes: Routes, log: seq<Move>, j: nat, own: PublishPacket)
    requires j < |log| && log[j].Inbound? && log[j].packet.Pubrel?
    requires Possible(client, routes, log[..j]) && Possible(client, routes, log[..j + 1])
    requires Handled(log[..j + 1]) != [] && Receiver.HandedBy(Handled(log[..j + 1])) == [own]
    ensures var before, after := Run(client, routes, log[..j]), Run(client, routes, log[..j + 1]);
            && after.conn.handed == before.conn.handed + [own]
            && match Chained(routes(own.topic), own)
               case None => after.channels == before.channels
               case Some(p) => Queued(before, after, client, p)
  {
    hide Receiver.Run, Receiver.HandedBy, Receiver.Step, Chained, Queued, Bound, Enumerates, MatchSet, Within, TargetsOf,
         FanAll, Replay;
    var g := log[..j + 1];
    assert g[..j] == log[..j] && g[j] == log[j];
    ConnIsRun(client, routes, log[..j]);
    ConnIsRun(client, routes, g);
    Receiver.HandedIsReleased(Handled(log[..j]));
    Receiver.HandedIsReleased(Handled(g));
    assert Handled(g)[..|Handled(g)| - 1] == Handled(log[..j]);
    var before, after := Run(client, routes, log[..j]), Run(client, routes, g);
    assert after.conn.handed == before.conn.handed + [own];
    var fan := LetThrough(routes, before.conn.handed, after.conn.handed);
    assert fan == Chained(routes(own.topic), own);
    if fan.Some? {
      FanQueues(before, after, client, fan.value, log[j].order);
    }
  }

  lemma {:induction false} HandledGrows(log: seq<Move>, i: nat, j: nat)
    requires i <= j <= |log|
    ensures Handled(log[..i]) <= Handled(log[..j])
    decreases j
  {
    if i < j {
      HandledGrows(log, i, j - 1);
      assert log[..j][..j - 1] == log[..j - 1];
    }
  }

  lemma OneMore(log: seq<Move>, i: nat)
    requires i < |log| && log[i].Inbound?
    ensures |Handled(log[..i + 1])| == |Handled(log[..i])| + 1
  {
    assert log[..i + 1][..i] == log[..i];
  }

  lemma OtherPlace(log: seq<Move>, i: nat, j: nat, n: nat, id: U16)
    requires i < |log| && j < |log| && i != j && log[i].Inbound? && log[j].Inbound?
    requires n < |Handled(log)| && Handled(log[..j + 1]) == Handled(log)[..n + 1]
    requires forall m | 0 <= m < |Handled(log)| :: HandsOn(Handled(log), m, id) ==> m == n
    ensures !HandsOnAt(log, i, id)
  {
    hide HandsOn, Handled;
    var p := Handled(log[..i + 1]);
    OneMore(log, i);
    OneMore(log, j);
    assert log[..|log|] == log;
    HandledGrows(log, i + 1, |log|);
    if i < j {
      HandledGrows(log, i + 1, j);
    } else {
      HandledGrows(log, j + 1, i);
    }
    var m := |p| - 1;
    assert m != n;
    SamePlace(p, Handled(log), m, id);
  }

  lemma SamePlace(p: seq<Packet>, h: seq<Packet>, m: nat, id: U16)
    requires p <= h && m < |p|
    ensures HandsOn(p, m, id) <==> HandsOn(h, m, id)
  {
    assert p[..m + 1] == h[..m + 1];
  }
}
