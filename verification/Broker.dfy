/** The broker object: its index, the connections it writes to, and its operations as atomic steps. */
module BrokerState {
  import opened Wire
  import opened Packets
  import opened PropertyFields
  import opened Subscriptions
  import opened Fanout
  import AckSlots
  import PacketIds
  import Outbound
  import Topic

  class Broker {
    var sessions: map<ClientId, Entry>
    var subs: Tree
    var channels: Channels
    var pendingAcks: map<nat, AckSlots.State>  // per connection, for operations that wait on it
    ghost var history: seq<Event>
    ghost var traces: Traces
    ghost var waits: map<nat, seq<AckSlots.Event>>

    function View(): Index
      reads this
    {
      Index(sessions, subs)
    }

    /** The index is what its history says, and each connection and its waiting slots what their own traces say. */
    ghost predicate Valid()
      reads this
    {
      && View() == Replay(history)
      && Bound(View(), channels)
      && Lined(channels, traces)
      && AllWaited(pendingAcks, waits) && pendingAcks.Keys == channels.Keys
    }

    constructor ()
      ensures Valid() && history == [] && traces == map[] && waits == map[]
    {
      sessions, subs, channels, pendingAcks := map[], map[], map[], map[];
      history, traces, waits := [], map[], map[];
    }

    /** A new connection, with a number that no other has had. */
    method OpenChannel(k: nat)
      requires Valid() && k !in channels
      modifies this
      ensures Valid() && View() == old(View()) && history == old(history)
      ensures channels == old(channels)[k := Outbound.FRESH] && traces == old(traces)[k := []]
      ensures pendingAcks == old(pendingAcks)[k := AckSlots.INITIAL] && waits == old(waits)[k := []]
    {
      hide Replay, Lined, AllWaited;
      LinedFresh(channels, traces, k);
      AllWaitedFresh(pendingAcks, waits, k);
      pendingAcks := pendingAcks[k := AckSlots.INITIAL];
      waits := waits[k := []];
      channels := channels[k := Outbound.FRESH];
      traces := traces[k := []];
    }

    method RemoveClient(c: ClientId)
      modifies this`subs
      ensures subs == WithoutClient(old(subs), c)
    {
      var todo := subs.Keys;
      while todo != {}
        invariant subs.Keys == old(subs).Keys && todo <= subs.Keys
        invariant forall f | f in subs :: subs[f] == if f in todo then old(subs)[f] else old(subs)[f] - {c}
        decreases |todo|
      {
        var f :| f in todo;
        subs := subs[f := subs[f] - {c}];
        todo := todo - {f};
      }
    }

    method RegisterSession(c: ClientId, channel: nat, will: Option<Will>, cleanSession: bool) returns (present: bool)
      requires Valid() && channel in channels
      modifies this`sessions, this`subs, this`history
      ensures Valid() && history == old(history) + [Register(c, channel, will, cleanSession)]
      ensures present <==> !cleanSession && Registration(old(history), c).Some?
    {
      hide Replay, Bound, Lined, AllWaited, Registration;
      ghost var e := Register(c, channel, will, cleanSession);
      SessionsRefine(history, c);
      StepKeepsBound(View(), channels, e);
      ReplaySnoc(history, e);
      var existing := c in sessions;
      sessions := sessions - {c};
      present := !cleanSession && existing;
      if cleanSession {
        RemoveClient(c);
      }
      sessions := sessions[c := Entry(channel, map[], will, cleanSession)];
      assert sessions == old(sessions)[c := Entry(channel, map[], will, cleanSession)];
      history := history + [e];
    }

    method Subscribe(c: ClientId, filters: seq<TopicFilter>) returns (codes: seq<SubackCode>)
      requires Valid()
      modifies this`sessions, this`subs, this`history
      ensures Valid() && history == old(history) + [Subscribing(c, filters)]
      ensures |codes| == |filters|
      ensures forall i | 0 <= i < |codes| ::
                codes[i] == if Registration(old(history), c).Some? && Topic.ValidFilter(filters[i].filter)
                            then Granted(filters[i].qos) else Failure
    {
      hide Replay, Bound, Lined, AllWaited, Registration, Subscribed, Topic.ValidFilter;
      ghost var ix, step := View(), Subscribing(c, filters);
      SessionsRefine(history, c);
      StepKeepsBound(ix, channels, step);
      ReplaySnoc(history, step);
      SubscribedNone(ix, c, filters);
      if c !in sessions {
        codes := seq(|filters|, _ => Failure);
      } else {
        codes := [];
        for i := 0 to |filters|
          invariant View() == Subscribed(ix, c, filters[..i]) && history == old(history)
          invariant |codes| == i
          invariant forall j | 0 <= j < i ::
                      codes[j] == if Topic.ValidFilter(filters[j].filter) then Granted(filters[j].qos) else Failure
        {
          var tf := filters[i];
          SubscribedSnoc(ix, c, filters, i);
          var valid := ValidSubscription(tf);
          if valid {
            var e := sessions[c];
            sessions := sessions[c := e.(filters := e.filters[tf.filter := tf.qos])];
            subs := TreeWith(subs, c, tf.filter, tf.qos);
            codes := codes + [Granted(tf.qos)];
          } else {
            codes := codes + [Failure];
          }
        }
        assert filters[..|filters|] == filters;
      }
      history := history + [step];
    }

    method Unsubscribe(c: ClientId, topics: seq<Filter>)
      requires Valid()
      modifies this`sessions, this`subs, this`history
      ensures Valid() && history == old(history) + [Unsubscribing(c, topics)]
    {
      hide Replay, Bound, Lined, AllWaited, Unsubscribed;
      ghost var ix, step := View(), Unsubscribing(c, topics);
      StepKeepsBound(ix, channels, step);
      ReplaySnoc(history, step);
      UnsubscribedNone(ix, c, topics);
      if c in sessions {
        for i := 0 to |topics|
          invariant View() == Unsubscribed(ix, c, topics[..i]) && history == old(history)
        {
          UnsubscribedSnoc(ix, c, topics, i);
          var f := topics[i];
          var e := sessions[c];
          sessions := sessions[c := e.(filters := e.filters - {f})];
          subs := TreeWithout(subs, c, f);
        }
        assert topics[..|topics|] == topics;
      }
      history := history + [step];
    }

    /** Every subscription whose filter matches, in the order in which the maps happen to be walked. */
    method MatchingTargets(topic: Bytes) returns (results: seq<Target>, ghost order: seq<Pair>)
      ensures Enumerates(order, MatchSet(subs, topic)) && Within(subs, order)
      ensures results == TargetsOf(subs, order)
    {
      hide Topic.Matches, Topic.Split, MatchSet, Done, Partly, Enumerates, Within, TargetsOf;
      var segs := Topic.Split(topic);
      var todo := subs.Keys;
      results, order := [], [];
      NoneDone(subs, topic);
      while todo != {}
        invariant todo <= subs.Keys && Within(subs, order)
        invariant Enumerates(order, Done(subs, topic, todo))
        invariant results == TargetsOf(subs, order)
        decreases |todo|
      {
        var f :| f in todo;
        var hit := Topic.FilterMatches(f, segs);
        FilterDone(subs, topic, todo, f);
        if hit {
          var clients := subs[f].Keys;
          while clients != {}
            invariant clients <= subs[f].Keys && Within(subs, order)
            invariant Enumerates(order, Done(subs, topic, todo) + Partly(subs, f, clients))
            invariant results == TargetsOf(subs, order)
            decreases |clients|
          {
            var c :| c in clients;
            AddedOne(subs, topic, todo, f, clients, c, order);
            results := results + [(c, subs[f][c])];
            order := order + [(f, c)];
            clients := clients - {c};
          }
        }
        todo := todo - {f};
      }
    }

    /** One event of connection `k`. */
    method Advance(k: nat, e: Outbound.Event)
      requires Valid() && k in channels
      modifies this`channels, this`traces
      ensures Valid()
      ensures channels == old(channels)[k := Outbound.Step(old(channels)[k], e)]
      ensures traces == old(traces)[k := old(traces)[k] + [e]]
    {
      hide Replay, Lined, AllWaited, Outbound.Step;
      LinedStep(channels, traces, k, e);
      channels := channels[k := Outbound.Step(channels[k], e)];
      traces := traces[k := traces[k] + [e]];
    }

    method Publish(source: ClientId, p: PublishPacket) returns (ghost order: seq<Pair>)
      requires Valid()
      modifies this`channels, this`traces
      ensures Valid()
      ensures Enumerates(order, MatchSet(subs, p.topic)) && Within(subs, order)
      ensures channels == FanAll(View(), old(channels), source, p, TargetsOf(subs, order))
      ensures traces == TracesAfter(View(), old(traces), source, p, TargetsOf(subs, order))
    {
      hide Replay, Lined, AllWaited, Outbound.Delivered, TracesAfter, Bound, Enumerates, MatchSet, Within,
           TargetsOf, FanAll, MinQos;
      var matching;
      matching, order := MatchingTargets(p.topic);
      FanNone(View(), channels, traces, source, p, matching);
      LinedKeys(channels, traces);
      for i := 0 to |matching|
        invariant Valid() && Bound(View(), old(channels))
        invariant channels == FanAll(View(), old(channels), source, p, matching[..i])
        invariant traces == TracesAfter(View(), old(traces), source, p, matching[..i])
      {
        FanSnoc(View(), old(channels), source, p, matching, i);
        TracesSnoc(View(), old(traces), source, p, matching, i);
        var (sub, qos) := matching[i];
        if sub != source && sub in sessions {
          SessionBound(View(), old(channels), sub);
          SessionBound(View(), channels, sub);
          Advance(sessions[sub].channel, Outbound.Deliver(p, MinQos(p.qos, qos)));
        }
      }
      assert matching[..|matching|] == matching;
    }

    /**
      The Will of the registration in place is fanned out after its session and
      subscriptions are gone, if the connection did not end gracefully.
     */
    method UnregisterSession(c: ClientId, graceful: bool) returns (fired: bool, ghost order: seq<Pair>)
      requires Valid()
      modifies this
      ensures Valid() && history == old(history) + [Unregister(c, graceful)]
      ensures fired <==> WillFires(history, |old(history)|)
      ensures !fired ==> channels == old(channels) && traces == old(traces)
      ensures fired ==>
                var i := Registration(old(history), c);
                && i.Some? && old(history)[i.value].will.Some?
                && var will := old(history)[i.value].will.value;
                var p := WillPublish(will);
                && p.topic == will.topic && p.payload == will.payload && p.qos == will.qos && p.retain == will.retain
                && p.properties == DEFAULT && !p.dup && p.packetId.None?
                && Enumerates(order, MatchSet(subs, p.topic)) && Within(subs, order)
                && Bound(View(), old(channels))
                && channels == FanAll(View(), old(channels), [], p, TargetsOf(subs, order))
                && traces == TracesAfter(View(), old(traces), [], p, TargetsOf(subs, order))
    {
      hide TracesAfter, Replay, Bound, Lined, AllWaited, Registration, Enumerates, MatchSet, Within, TargetsOf, FanAll;
      ghost var e := Unregister(c, graceful);
      SessionsRefine(history, c);
      StepKeepsBound(View(), channels, e);
      ReplaySnoc(history, e);
      fired, order := false, [];
      assert (history + [e])[..|history|] == history;
      history := history + [e];
      if c in sessions {
        var entry := sessions[c];
        sessions := sessions - {c};
        RemoveClient(c);
        if !graceful && entry.will.Some? {
          fired := true;
          order := Publish([], WillPublish(entry.will.value));
        }
      }
    }

    /** One event of the waiting slots of connection `k`. */
    method AdvanceWaits(k: nat, e: AckSlots.Event)
      requires Valid() && k in channels && AckSlots.Enabled(pendingAcks[k], e) && FiresPuback(e)
      modifies this`pendingAcks, this`waits
      ensures Valid()
      ensures pendingAcks == old(pendingAcks)[k := AckSlots.Step(old(pendingAcks)[k], e)]
      ensures waits == old(waits)[k := old(waits)[k] + [e]]
    {
      hide Replay, Bound, Lined, AllWaited, AckSlots.Step;
      AllWaitedStep(pendingAcks, waits, k, e);
      pendingAcks := pendingAcks[k := AckSlots.Step(pendingAcks[k], e)];
      waits := waits[k := waits[k] + [e]];
    }

    /** An operation on connection `k` draws an identifier and waits for an acknowledgement of it. */
    method InstallSlot(k: nat, kind: AckSlots.AckKind, waiter: nat) returns (id: U16)
      requires Valid() && k in channels && waiter !in pendingAcks[k].outcomes
      modifies this`channels, this`traces, this`pendingAcks, this`waits
      ensures Valid() && k in channels && id == PacketIds.IdOf(channels[k].issued)
      ensures channels == old(channels)[k := Outbound.Step(old(channels)[k], Outbound.AllocateOther)]
      ensures traces == old(traces)[k := old(traces)[k] + [Outbound.AllocateOther]]
      ensures pendingAcks == old(pendingAcks)[k := AckSlots.Step(old(pendingAcks)[k], AckSlots.Register(id, kind, waiter))]
      ensures waits == old(waits)[k := old(waits)[k] + [AckSlots.Register(id, kind, waiter)]]
    {
      hide Replay, Bound, Lined, AllWaited, AckSlots.Step;
      Advance(k, Outbound.AllocateOther);
      id := PacketIds.IdOf(channels[k].issued);
      AdvanceWaits(k, AckSlots.Register(id, kind, waiter));
    }

    /**
      PUBACK or PUBCOMP: acts on the connection that the client's session is
      bound to now. A waiting slot leaves the table; only one for PUBACK succeeds.
     */
    method AckOutbound(c: ClientId, id: U16)
      requires Valid()
      modifies this`channels, this`traces, this`pendingAcks, this`waits
      ensures Valid()
      ensures c !in sessions ==>
                channels == old(channels) && traces == old(traces) && pendingAcks == old(pendingAcks) && waits == old(waits)
      ensures c in sessions ==>
                var k, ack := sessions[c].channel, AckSlots.Ack(id, AckSlots.PubackKind);
                && k in old(channels) && traces == old(traces)[k := old(traces)[k] + [Outbound.Acked(id)]]
                && channels == old(channels)[k := Outbound.Step(old(channels)[k], Outbound.Acked(id))]
                && pendingAcks == old(pendingAcks)[k := AckSlots.Step(old(pendingAcks)[k], ack)]
                && waits == old(waits)[k := old(waits)[k] + [ack]]
    {
      hide Replay, Bound, Lined, AllWaited, Outbound.Step, AckSlots.Step;
      if c in sessions {
        SessionBound(View(), channels, c);
        var k := sessions[c].channel;
        Advance(k, Outbound.Acked(id));
        AdvanceWaits(k, AckSlots.Ack(id, AckSlots.PubackKind));
      }
    }

    /** The first `close` abandons the session: its inflight publishes and its waiting slots. */
    method CloseChannel(k: nat)
      requires Valid() && k in channels
      modifies this`channels, this`traces, this`pendingAcks, this`waits
      ensures Valid() && traces == old(traces)[k := old(traces)[k] + [Outbound.Close]]
      ensures channels == old(channels)[k := Outbound.Step(old(channels)[k], Outbound.Close)]
      ensures pendingAcks == if old(channels)[k].open
                             then old(pendingAcks)[k := AckSlots.Step(old(pendingAcks)[k], AckSlots.Abandon)]
                             else old(pendingAcks)
    {
      hide Replay, Bound, Lined, AllWaited, Outbound.Step, AckSlots.Step;
      if channels[k].open {
        AdvanceWaits(k, AckSlots.Abandon);
      }
      Advance(k, Outbound.Close);
    }
  }

  /** The server fires every acknowledgement as PUBACK. */
  predicate FiresPuback(e: AckSlots.Event) {
    e.Ack? ==> e.kind == AckSlots.PubackKind
  }

  /** The slots are the outcome of a legal run of waiting, so each waiter is resolved as its run says. */
  ghost predicate Waited(s: AckSlots.State, h: seq<AckSlots.Event>) {
    && AckSlots.Legal(AckSlots.INITIAL, h) && s == AckSlots.Run(AckSlots.INITIAL, h)
    && forall i | 0 <= i < |h| :: FiresPuback(h[i])
  }

  ghost predicate AllWaited(pendingAcks: map<nat, AckSlots.State>, waits: map<nat, seq<AckSlots.Event>>) {
    waits.Keys == pendingAcks.Keys && forall k | k in pendingAcks :: Waited(pendingAcks[k], waits[k])
  }

  /** Each connection is what its trace says. */
  ghost predicate Lined(channels: Channels, traces: Traces) {
    traces.Keys == channels.Keys && forall k | k in channels :: channels[k] == Outbound.Run(traces[k])
  }

  lemma LinedKeys(channels: Channels, traces: Traces)
    requires Lined(channels, traces)
    ensures traces.Keys == channels.Keys
  {
  }

  lemma LinedFresh(channels: Channels, traces: Traces, k: nat)
    requires Lined(channels, traces)
    ensures Lined(channels[k := Outbound.FRESH], traces[k := []])
  {
  }

  lemma LinedStep(channels: Channels, traces: Traces, k: nat, e: Outbound.Event)
    requires Lined(channels, traces) && k in channels
    ensures k in traces && Lined(channels[k := Outbound.Step(channels[k], e)], traces[k := traces[k] + [e]])
  {
    hide Outbound.Run, Outbound.Step;
    Outbound.RunSnoc(traces[k], e);
  }

  lemma AllWaitedFresh(pendingAcks: map<nat, AckSlots.State>, waits: map<nat, seq<AckSlots.Event>>, k: nat)
    requires AllWaited(pendingAcks, waits)
    ensures AllWaited(pendingAcks[k := AckSlots.INITIAL], waits[k := []])
  {
  }

  lemma AllWaitedStep(pendingAcks: map<nat, AckSlots.State>, waits: map<nat, seq<AckSlots.Event>>, k: nat, e: AckSlots.Event)
    requires AllWaited(pendingAcks, waits) && k in pendingAcks && AckSlots.Enabled(pendingAcks[k], e) && FiresPuback(e)
    ensures k in waits && AllWaited(pendingAcks[k := AckSlots.Step(pendingAcks[k], e)], waits[k := waits[k] + [e]])
  {
    hide AckSlots.Step, AckSlots.Legal, AckSlots.Run, AckSlots.Enabled;
    AckSlots.RunSnoc(AckSlots.INITIAL, waits[k], e);
  }

  /**
    On the server only a waiter for PUBACK can succeed, in every reachable broker:
    PUBCOMP fires as PUBACK, and PUBREC fires nothing.
   */
  lemma OnlyPubackSucceeds(s: AckSlots.State, before: seq<AckSlots.Event>, id: U16, kind: AckSlots.AckKind, w: nat,
                           after: seq<AckSlots.Event>)
    requires Waited(s, before + [AckSlots.Register(id, kind, w)] + after) && kind != AckSlots.PubackKind
    ensures w in s.outcomes && s.outcomes[w] != AckSlots.Acknowledged
  {
    hide AckSlots.Run, AckSlots.Legal, AckSlots.Verdict;
    var h := before + [AckSlots.Register(id, kind, w)] + after;
    AckSlots.WaiterConserved(before, id, kind, w, after);
    assert forall i | 0 <= i < |after| :: after[i] == h[|before| + 1 + i];
    NotAcknowledged(after, id, kind, w);
  }

  lemma {:induction false} NotAcknowledged(h: seq<AckSlots.Event>, id: U16, kind: AckSlots.AckKind, w: nat)
    requires kind != AckSlots.PubackKind && forall i | 0 <= i < |h| :: FiresPuback(h[i])
    ensures AckSlots.Verdict(h, id, kind, w) != AckSlots.Acknowledged
  {
    if h != [] {
      NotAcknowledged(h[1..], id, kind, w);
    }
  }

  function WillPublish(will: Will): PublishPacket {
    PublishPacket(DEFAULT, will.topic, will.payload, false, will.qos, will.retain, None)
  }

  type Traces = map<nat, seq<Outbound.Event>>

  /** The fanout extends the trace of each connection by its own deliveries. */
  ghost function TracesAfter(ix: Index, traces: Traces, source: ClientId, p: PublishPacket, ts: seq<Target>): Traces {
    map k | k in traces :: traces[k] + Outbound.Deliveries(p, QosFor(ix, source, p, k, ts))
  }

  lemma FanNone(ix: Index, channels: Channels, traces: Traces, source: ClientId, p: PublishPacket, ts: seq<Target>)
    requires Bound(ix, channels)
    ensures FanAll(ix, channels, source, p, ts[..0]) == channels
    ensures TracesAfter(ix, traces, source, p, ts[..0]) == traces
  {
    assert forall k | k in traces :: traces[k] + Outbound.Deliveries(p, []) == traces[k];
  }

  lemma TracesSnoc(ix: Index, traces: Traces, source: ClientId, p: PublishPacket, ts: seq<Target>, i: nat)
    requires i < |ts|
    ensures var before, t := TracesAfter(ix, traces, source, p, ts[..i]), ts[i];
            TracesAfter(ix, traces, source, p, ts[..i + 1]) ==
              if t.0 == source || t.0 !in ix.sessions || ix.sessions[t.0].channel !in traces then before
              else var k := ix.sessions[t.0].channel;
                   before[k := before[k] + [Outbound.Deliver(p, MinQos(p.qos, t.1))]]
  {
    hide MinQos;
    assert ts[..i + 1][..i] == ts[..i];
    forall k, q | k in traces
      ensures traces[k] + Outbound.Deliveries(p, QosFor(ix, source, p, k, ts[..i]) + [q])
           == traces[k] + Outbound.Deliveries(p, QosFor(ix, source, p, k, ts[..i])) + [Outbound.Deliver(p, q)]
    {
    }
  }

  lemma FanSnoc(ix: Index, channels: Channels, source: ClientId, p: PublishPacket, ts: seq<Target>, i: nat)
    requires Bound(ix, channels) && i < |ts|
    ensures var before := FanAll(ix, channels, source, p, ts[..i]);
            Bound(ix, before) && FanAll(ix, channels, source, p, ts[..i + 1]) == FanOne(ix, before, source, p, ts[i])
  {
    assert ts[..i + 1][..i] == ts[..i];
  }

  lemma SessionBound(ix: Index, channels: Channels, c: ClientId)
    requires Bound(ix, channels) && c in ix.sessions
    ensures ix.sessions[c].channel in channels
  {
  }

  lemma ReplaySnoc(h: seq<Event>, e: Event)
    ensures Replay(h + [e]) == Step(Replay(h), e)
  {
    assert (h + [e])[..|h|] == h;
  }

  lemma StepKeepsBound(ix: Index, channels: Channels, e: Event)
    requires Bound(ix, channels) && (e.Register? ==> e.channel in channels)
    ensures Bound(Step(ix, e), channels)
  {
    hide Subscribed, Unsubscribed, Lookup, FilterLookup;
    match e
    case Subscribing(c, filters) => SubscribedEffect(ix, c, filters, [], c);
    case Unsubscribing(c, topics) => UnsubscribedEffect(ix, c, topics, [], c);
    case _ =>
  }

  lemma SubscribedNone(ix: Index, c: ClientId, filters: seq<TopicFilter>)
    ensures Subscribed(ix, c, filters[..0]) == ix
    ensures c !in ix.sessions ==> Subscribed(ix, c, filters) == ix
  {
  }

  lemma SubscribedSnoc(ix: Index, c: ClientId, filters: seq<TopicFilter>, i: nat)
    requires i < |filters| && c in ix.sessions
    ensures c in Subscribed(ix, c, filters[..i]).sessions
    ensures Subscribed(ix, c, filters[..i + 1]) == SubscribedOne(Subscribed(ix, c, filters[..i]), c, filters[i])
  {
    assert filters[..i + 1][..i] == filters[..i];
  }

  lemma UnsubscribedNone(ix: Index, c: ClientId, topics: seq<Filter>)
    ensures Unsubscribed(ix, c, topics[..0]) == ix
    ensures c !in ix.sessions ==> Unsubscribed(ix, c, topics) == ix
  {
  }

  lemma UnsubscribedSnoc(ix: Index, c: ClientId, topics: seq<Filter>, i: nat)
    requires i < |topics| && c in ix.sessions
    ensures c in Unsubscribed(ix, c, topics[..i]).sessions
    ensures Unsubscribed(ix, c, topics[..i + 1]) == UnsubscribedOne(Unsubscribed(ix, c, topics[..i]), c, topics[i])
  {
    assert topics[..i + 1][..i] == topics[..i];
  }

  method ValidSubscription(tf: TopicFilter) returns (valid: bool)
    ensures valid <==> Topic.ValidFilter(tf.filter)
  {
    var r := Topic.ValidateSubscribeFilter(tf.filter);
    valid := r.Ok?;
  }

  /** The matching pairs of the filters already walked. */
  ghost function Done(subs: Tree, topic: Bytes, todo: set<Filter>): set<Pair> {
    set x | x in MatchSet(subs, topic) && x.0 !in todo
  }

  /** The pairs of `f` already walked. */
  ghost function Partly(subs: Tree, f: Filter, clients: set<ClientId>): set<Pair>
    requires f in subs
  {
    set c | c in subs[f] && c !in clients :: (f, c)
  }

  lemma NoneDone(subs: Tree, topic: Bytes)
    ensures Enumerates([], Done(subs, topic, subs.Keys)) && Done(subs, topic, {}) == MatchSet(subs, topic)
    ensures Within(subs, []) && TargetsOf(subs, []) == []
  {
    assert Done(subs, topic, subs.Keys) == {};
  }

  lemma FilterDone(subs: Tree, topic: Bytes, todo: set<Filter>, f: Filter)
    requires f in todo && f in subs
    ensures Done(subs, topic, todo) + Partly(subs, f, subs[f].Keys) == Done(subs, topic, todo)
    ensures Done(subs, topic, todo - {f})
         == Done(subs, topic, todo) + if Matching(f, topic) then Partly(subs, f, {}) else {}
  {
  }

  lemma AddedOne(subs: Tree, topic: Bytes, todo: set<Filter>, f: Filter, clients: set<ClientId>, c: ClientId, order: seq<Pair>)
    requires f in todo && f in subs && c in subs[f] && c in clients
    requires Enumerates(order, Done(subs, topic, todo) + Partly(subs, f, clients)) && Within(subs, order)
    ensures Enumerates(order + [(f, c)], Done(subs, topic, todo) + Partly(subs, f, clients - {c}))
    ensures Within(subs, order + [(f, c)])
    ensures TargetsOf(subs, order + [(f, c)]) == TargetsOf(subs, order) + [(c, subs[f][c])]
  {
    assert Done(subs, topic, todo) + Partly(subs, f, clients - {c})
        == Done(subs, topic, todo) + Partly(subs, f, clients) + {(f, c)};
    assert (f, c) !in Done(subs, topic, todo) + Partly(subs, f, clients);
  }
}
