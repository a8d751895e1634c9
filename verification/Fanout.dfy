/**
  Fanout of a publish: one copy for each matching (filter, client) pair, into the
  queue of the connection that the client's session is bound to.
 */
module Fanout {
  import opened Wire
  import opened Packets
  import opened Subscriptions
  import Outbound
  import Topic

  type Channels = map<nat, Outbound.Channel>
  type Pair = (Filter, ClientId)
  type Target = (ClientId, QoS)

  /** Every session's connection exists. */
  predicate Bound(ix: Index, channels: Channels) {
    forall c | c in ix.sessions :: ix.sessions[c].channel in channels
  }

  function FanOne(ix: Index, channels: Channels, source: ClientId, p: PublishPacket, t: Target): Channels
    requires Bound(ix, channels)
  {
    if t.0 == source || t.0 !in ix.sessions then channels
    else
      var k := ix.sessions[t.0].channel;
      channels[k := Outbound.Delivered(channels[k], p, MinQos(p.qos, t.1))]
  }

  function FanAll(ix: Index, channels: Channels, source: ClientId, p: PublishPacket, ts: seq<Target>): (r: Channels)
    requires Bound(ix, channels)
    ensures r.Keys == channels.Keys
    decreases |ts|
  {
    if ts == [] then channels
    else FanOne(ix, FanAll(ix, channels, source, p, ts[..|ts| - 1]), source, p, ts[|ts| - 1])
  }

  /** The effective QoS of each target that is delivered through connection `k`, in order. */
  function QosFor(ix: Index, source: ClientId, p: PublishPacket, k: nat, ts: seq<Target>): seq<QoS> {
    if ts == [] then []
    else
      var before, t := QosFor(ix, source, p, k, ts[..|ts| - 1]), ts[|ts| - 1];
      if t.0 != source && t.0 in ix.sessions && ix.sessions[t.0].channel == k then before + [MinQos(p.qos, t.1)] else before
  }

  /** Each connection sees only its own deliveries. */
  lemma {:induction false} FanAllAt(ix: Index, channels: Channels, source: ClientId, p: PublishPacket, ts: seq<Target>, k: nat)
    requires Bound(ix, channels) && k in channels
    ensures FanAll(ix, channels, source, p, ts)[k]
         == Outbound.DeliveredAll(channels[k], p, QosFor(ix, source, p, k, ts))
    decreases |ts|
  {
    hide Outbound.Delivered, MinQos;
    if ts != [] {
      var front, t := ts[..|ts| - 1], ts[|ts| - 1];
      FanAllAt(ix, channels, source, p, front, k);
      var qs := QosFor(ix, source, p, k, ts);
      if t.0 != source && t.0 in ix.sessions && ix.sessions[t.0].channel == k {
        assert qs[..|qs| - 1] == QosFor(ix, source, p, k, front);
      }
    }
  }

  // ---------- which pairs match ----------

  predicate Matching(f: Filter, topic: Bytes) {
    Topic.Matches(Topic.Split(f), Topic.Split(topic))
  }

  /** A filter the broker holds matches a topic level by level: each level is `+` or equal, and `#` takes the rest. */
  lemma MatchingMeans(f: Filter, topic: Bytes)
    requires Topic.ValidFilter(f)
    ensures var fs, ts := Topic.Split(f), Topic.Split(topic);
            var n := if fs[|fs| - 1] == [0x23] then |fs| - 1 else |fs|;
            Matching(f, topic) <==>
              && (if n < |fs| then n <= |ts| else n == |ts|)
              && forall i | 0 <= i < n :: fs[i] == [0x2B] || fs[i] == ts[i]
  {
    hide Topic.Split, Topic.Matches, Topic.ValidFilter;
    Topic.ValidFilterMatches(f, Topic.Split(topic));
  }

  function MatchSet(subs: Tree, topic: Bytes): set<Pair> {
    set f, c | f in subs && c in subs[f] && Matching(f, topic) :: (f, c)
  }

  predicate Distinct<T(==)>(s: seq<T>) {
    forall i, j | 0 <= i < j < |s| :: s[i] != s[j]
  }

  /** `order` lists each element of `s` once. */
  predicate Enumerates<T(==)>(order: seq<T>, s: set<T>) {
    Distinct(order) && (forall x | x in order :: x in s) && (forall x | x in s :: x in order)
  }

  predicate Within(subs: Tree, order: seq<Pair>) {
    forall x | x in order :: Lookup(subs, x.0, x.1).Some?
  }

  function TargetsOf(subs: Tree, order: seq<Pair>): seq<Target>
    requires Within(subs, order)
  {
    seq(|order|, i requires 0 <= i < |order| => assert order[i] in order; (order[i].1, subs[order[i].0][order[i].1]))
  }

  // ---------- counting ----------

  function Count(qs: seq<QoS>, q: QoS): nat {
    if qs == [] then 0 else Count(qs[..|qs| - 1], q) + if qs[|qs| - 1] == q then 1 else 0
  }

  lemma CountSnoc(qs: seq<QoS>, x: QoS, q: QoS)
    ensures Count(qs + [x], q) == Count(qs, q) + if x == q then 1 else 0
  {
    assert (qs + [x])[..|qs|] == qs;
  }

  /** The pair is delivered through connection `k` at QoS `q`. */
  predicate Receives(ix: Index, source: ClientId, p: PublishPacket, k: nat, q: QoS, x: Pair) {
    var (f, c) := x;
    && c != source && c in ix.sessions && ix.sessions[c].channel == k
    && Lookup(ix.subs, f, c).Some? && MinQos(p.qos, Lookup(ix.subs, f, c).value) == q
  }

  function Receivers(ix: Index, source: ClientId, p: PublishPacket, k: nat, q: QoS, order: seq<Pair>): set<Pair> {
    set x | x in order && Receives(ix, source, p, k, q, x)
  }

  lemma ReceiversSnoc(ix: Index, source: ClientId, p: PublishPacket, k: nat, q: QoS, front: seq<Pair>, x: Pair)
    requires x !in front
    ensures |Receivers(ix, source, p, k, q, front + [x])|
         == |Receivers(ix, source, p, k, q, front)| + if Receives(ix, source, p, k, q, x) then 1 else 0
  {
    hide Receives;
    var before := Receivers(ix, source, p, k, q, front);
    assert Receivers(ix, source, p, k, q, front + [x])
        == before + if Receives(ix, source, p, k, q, x) then {x} else {};
  }

  lemma {:induction false} CountIsCardinality(ix: Index, source: ClientId, p: PublishPacket, k: nat, q: QoS, order: seq<Pair>)
    requires Distinct(order) && Within(ix.subs, order)
    ensures Count(QosFor(ix, source, p, k, TargetsOf(ix.subs, order)), q) == |Receivers(ix, source, p, k, q, order)|
    decreases |order|
  {
    hide MinQos, Count, Lookup, Receives;
    if order == [] {
      assert Receivers(ix, source, p, k, q, order) == {};
      CountNone(q);
    } else {
      hide *;
      var front, x := order[..|order| - 1], order[|order| - 1];
      assert order == front + [x];
      LastIsNew(front, x);
      QosForSnoc(ix, source, p, k, q, front, x);
      CountIsCardinality(ix, source, p, k, q, front);
      ReceiversSnoc(ix, source, p, k, q, front, x);
    }
  }

  lemma LastIsNew<T>(front: seq<T>, x: T)
    requires Distinct(front + [x])
    ensures Distinct(front) && x !in front
  {
    var s := front + [x];
    assert forall i | 0 <= i < |front| :: front[i] == s[i] && s[i] != s[|front|];
  }

  lemma CountNone(q: QoS)
    ensures Count([], q) == 0
  {
  }

  lemma QosForSnoc(ix: Index, source: ClientId, p: PublishPacket, k: nat, q: QoS, front: seq<Pair>, x: Pair)
    requires Within(ix.subs, front + [x])
    ensures Within(ix.subs, front)
    ensures Count(QosFor(ix, source, p, k, TargetsOf(ix.subs, front + [x])), q)
         == Count(QosFor(ix, source, p, k, TargetsOf(ix.subs, front)), q)
            + if Receives(ix, source, p, k, q, x) then 1 else 0
  {
    hide MinQos, Count;
    assert forall y | y in front :: y in front + [x];
    assert x in front + [x];
    var ts, before := TargetsOf(ix.subs, front + [x]), TargetsOf(ix.subs, front);
    var t := ts[|front|];
    assert ts[..|front|] == before;
    assert t == (x.1, ix.subs[x.0][x.1]);
    CountSnoc(QosFor(ix, source, p, k, before), MinQos(p.qos, t.1), q);
  }

  // ---------- exactness ----------

  function Levels(ms: seq<PublishPacket>): seq<QoS> {
    seq(|ms|, i requires 0 <= i < |ms| => ms[i].qos)
  }

  /**
    By the history alone: the last event affecting the pair granted a QoS, `q` is
    the lesser of it and the publish's, the filter matches, the client is not the
    publisher, and the registration in place came with connection `k`.
   */
  predicate Due(h: seq<Event>, source: ClientId, p: PublishPacket, k: nat, q: QoS, x: Pair) {
    var (f, c) := x;
    && c != source && Matching(f, p.topic)
    && Grant(h, f, c).Some? && Lesser(q, p.qos, Grant(h, f, c).value)
    && Registration(h, c).Some? && h[Registration(h, c).value].channel == k
  }

  /** `q` is one of the two and above neither. */
  predicate Lesser(q: QoS, a: QoS, b: QoS) {
    (q == a || q == b) && q.Level() <= a.Level() && q.Level() <= b.Level()
  }

  lemma LesserIsMin(a: QoS, b: QoS)
    ensures forall q :: Lesser(q, a, b) <==> q == MinQos(a, b)
  {
  }

  lemma DueIsReceives(h: seq<Event>, source: ClientId, p: PublishPacket, k: nat, q: QoS, x: Pair)
    ensures Due(h, source, p, k, q, x) <==>
              x in MatchSet(Replay(h).subs, p.topic) && Receives(Replay(h), source, p, k, q, x)
  {
    hide Replay, Grant, Registration, Matching, MinQos, Lesser;
    TreeRefines(h, x.0, x.1);
    if Grant(h, x.0, x.1).Some? {
      LesserIsMin(p.qos, Grant(h, x.0, x.1).value);
    }
    SessionsRefine(h, x.1);
  }

  /**
    Fanout exactness. In every reachable index and for any order in which the
    matching pairs are visited, the queue of a connection whose writer runs grows
    by copies of the publish, with dup and retain cleared, a nonzero identifier
    exactly above QoS 0, and for each QoS as many copies as there are pairs due at
    that QoS.
   */
  lemma FanoutExact(h: seq<Event>, channels: Channels, source: ClientId, p: PublishPacket, order: seq<Pair>, k: nat, q: QoS)
    requires Bound(Replay(h), channels) && k in channels
    requires Enumerates(order, MatchSet(Replay(h).subs, p.topic))
    ensures Within(Replay(h).subs, order)
    ensures forall x | Due(h, source, p, k, q, x) :: x in order
    ensures var ix, ch := Replay(h), channels[k];
            var r := FanAll(ix, channels, source, p, TargetsOf(ix.subs, order))[k];
            var qs := QosFor(ix, source, p, k, TargetsOf(ix.subs, order));
            var ms := Outbound.Copies(p, qs, ch.issued);
            && r.outbox == (if ch.receiving then ch.outbox + ms else ch.outbox)
            && r.issued == ch.issued + Outbound.NumberedIn(qs)
            && (forall i | 0 <= i < |ms| :: i < |qs| && Outbound.IsCopy(ms[i], p, qs, i, ch.issued))
            && Levels(ms) == qs && (forall i | 0 <= i < |ms| :: ms[i].qos.Level() <= p.qos.Level())
            && Count(qs, q) == |set x | x in order && Due(h, source, p, k, q, x)|
  {
    hide Replay, Receives, Due, Matching, FanAll, QosFor, Outbound.Copies, Outbound.NumberedIn, Count;
    var ix := Replay(h);
    forall x | x in order
      ensures Lookup(ix.subs, x.0, x.1).Some?
    {
      assert x in MatchSet(ix.subs, p.topic);
    }
    forall x: Pair
      ensures Due(h, source, p, k, q, x) <==> x in MatchSet(ix.subs, p.topic) && Receives(ix, source, p, k, q, x)
    {
      DueIsReceives(h, source, p, k, q, x);
    }
    var ts := TargetsOf(ix.subs, order);
    var qs := QosFor(ix, source, p, k, ts);
    FanAllAt(ix, channels, source, p, ts, k);
    Outbound.DeliveredAllQueue(channels[k], p, qs);
    Outbound.CopiesShape(p, qs, channels[k].issued);
    QosForBelow(ix, source, p, k, ts);
    CountIsCardinality(ix, source, p, k, q, order);
    assert (set x | x in order && Due(h, source, p, k, q, x)) == Receivers(ix, source, p, k, q, order);
  }

  lemma {:induction false} QosForBelow(ix: Index, source: ClientId, p: PublishPacket, k: nat, ts: seq<Target>)
    ensures forall i | 0 <= i < |QosFor(ix, source, p, k, ts)| :: QosFor(ix, source, p, k, ts)[i].Level() <= p.qos.Level()
    decreases |ts|
  {
    if ts != [] {
      QosForBelow(ix, source, p, k, ts[..|ts| - 1]);
    }
  }

  /** A connection for which no pair is due is left as it was. */
  lemma NothingDue(h: seq<Event>, channels: Channels, source: ClientId, p: PublishPacket, order: seq<Pair>, k: nat)
    requires Bound(Replay(h), channels) && k in channels
    requires Enumerates(order, MatchSet(Replay(h).subs, p.topic)) && Within(Replay(h).subs, order)
    requires forall q, x :: !Due(h, source, p, k, q, x)
    ensures FanAll(Replay(h), channels, source, p, TargetsOf(Replay(h).subs, order))[k] == channels[k]
  {
    hide Replay, Due, MatchSet, FanAll, QosFor;
    var ix := Replay(h);
    var ts := TargetsOf(ix.subs, order);
    var qs := QosFor(ix, source, p, k, ts);
    FanAllAt(ix, channels, source, p, ts, k);
    if qs != [] {
      LastIsCounted(qs);
    }
    forall q
      ensures Count(qs, q) == 0
    {
      FanoutExact(h, channels, source, p, order, k, q);
      assert (set x | x in order && Due(h, source, p, k, q, x)) == {};
    }
  }

  lemma LastIsCounted(qs: seq<QoS>)
    requires qs != []
    ensures Count(qs, qs[|qs| - 1]) >= 1
  {
  }

  /** The order in which the maps are walked does not change how many copies each connection gets at each QoS. */
  lemma OrderIrrelevant(ix: Index, source: ClientId, p: PublishPacket, a: seq<Pair>, b: seq<Pair>, k: nat, q: QoS)
    requires Enumerates(a, MatchSet(ix.subs, p.topic)) && Enumerates(b, MatchSet(ix.subs, p.topic))
    ensures Within(ix.subs, a) && Within(ix.subs, b)
    ensures Count(QosFor(ix, source, p, k, TargetsOf(ix.subs, a)), q) == Count(QosFor(ix, source, p, k, TargetsOf(ix.subs, b)), q)
  {
    hide Receives, QosFor, Count, Matching;
    forall x | x in a || x in b
      ensures Lookup(ix.subs, x.0, x.1).Some?
    {
      assert x in MatchSet(ix.subs, p.topic);
    }
    CountIsCardinality(ix, source, p, k, q, a);
    CountIsCardinality(ix, source, p, k, q, b);
    assert Receivers(ix, source, p, k, q, a) == Receivers(ix, source, p, k, q, b);
  }

  /** A Will is never fanned out to the client whose departure published it. */
  lemma WillSkipsDeparted(h: seq<Event>, c: ClientId, graceful: bool, p: PublishPacket, k: nat, q: QoS, f: Filter)
    ensures !Due(h + [Unregister(c, graceful)], [], p, k, q, (f, c))
  {
    hide Replay, Matching, MinQos;
    DepartedHasNoSubscriptions(h, c, graceful, f);
    TreeRefines(h + [Unregister(c, graceful)], f, c);
  }
}
