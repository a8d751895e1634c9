/**
  The broker's index: sessions, and the map from filter to subscribers. Its state
  after any sequence of operations is described by the sequence itself.
 */
module Subscriptions {
  import opened Wire
  import opened Packets
  import Topic

  type ClientId = Bytes
  type Filter = Bytes

  datatype Will = Will(topic: Text, payload: Bytes, qos: QoS, retain: bool)

  datatype Entry = Entry(channel: nat, filters: map<Filter, QoS>, will: Option<Will>, cleanSession: bool)

  type Tree = map<Filter, map<ClientId, QoS>>

  datatype Index = Index(sessions: map<ClientId, Entry>, subs: Tree)

  datatype TopicFilter = TopicFilter(filter: Filter, qos: QoS)

  datatype Event =
    | Register(client: ClientId, channel: nat, will: Option<Will>, cleanSession: bool)
    | Unregister(client: ClientId, graceful: bool)
    | Subscribing(client: ClientId, filters: seq<TopicFilter>)
    | Unsubscribing(client: ClientId, topics: seq<Filter>)

  function Lookup(subs: Tree, f: Filter, c: ClientId): Option<QoS> {
    if f in subs && c in subs[f] then Some(subs[f][c]) else None
  }

  // ---------- the operations as functions of the index ----------

  function WithoutClient(subs: Tree, c: ClientId): Tree {
    map f | f in subs :: subs[f] - {c}
  }

  function TreeWith(subs: Tree, c: ClientId, f: Filter, q: QoS): Tree {
    subs[f := (if f in subs then subs[f] else map[])[c := q]]
  }

  function TreeWithout(subs: Tree, c: ClientId, f: Filter): Tree {
    if f in subs then subs[f := subs[f] - {c}] else subs
  }

  function Registered(ix: Index, c: ClientId, channel: nat, will: Option<Will>, clean: bool): Index {
    Index(ix.sessions[c := Entry(channel, map[], will, clean)],
          if clean then WithoutClient(ix.subs, c) else ix.subs)
  }

  function Unregistered(ix: Index, c: ClientId): Index {
    if c !in ix.sessions then ix else Index(ix.sessions - {c}, WithoutClient(ix.subs, c))
  }

  function SubscribedOne(ix: Index, c: ClientId, tf: TopicFilter): Index
    requires c in ix.sessions
  {
    if !Topic.ValidFilter(tf.filter) then ix
    else
      var e := ix.sessions[c];
      Index(ix.sessions[c := e.(filters := e.filters[tf.filter := tf.qos])],
            TreeWith(ix.subs, c, tf.filter, tf.qos))
  }

  function Subscribed(ix: Index, c: ClientId, filters: seq<TopicFilter>): (r: Index)
    ensures r.sessions.Keys == ix.sessions.Keys
    decreases |filters|
  {
    if c !in ix.sessions || filters == [] then ix
    else SubscribedOne(Subscribed(ix, c, filters[..|filters| - 1]), c, filters[|filters| - 1])
  }

  function UnsubscribedOne(ix: Index, c: ClientId, f: Filter): Index
    requires c in ix.sessions
  {
    var e := ix.sessions[c];
    Index(ix.sessions[c := e.(filters := e.filters - {f})], TreeWithout(ix.subs, c, f))
  }

  function Unsubscribed(ix: Index, c: ClientId, topics: seq<Filter>): (r: Index)
    ensures r.sessions.Keys == ix.sessions.Keys
    decreases |topics|
  {
    if c !in ix.sessions || topics == [] then ix
    else UnsubscribedOne(Unsubscribed(ix, c, topics[..|topics| - 1]), c, topics[|topics| - 1])
  }

  function Step(ix: Index, e: Event): Index {
    match e
    case Register(c, channel, will, clean) => Registered(ix, c, channel, will, clean)
    case Unregister(c, _) => Unregistered(ix, c)
    case Subscribing(c, filters) => Subscribed(ix, c, filters)
    case Unsubscribing(c, topics) => Unsubscribed(ix, c, topics)
  }

  function Replay(h: seq<Event>): Index {
    if h == [] then Index(map[], map[]) else Step(Replay(h[..|h| - 1]), h[|h| - 1])
  }

  // ---------- the reference: what the history says ----------

  /** The position of the registration of `c` that is still in place. */
  function Registration(h: seq<Event>, c: ClientId): (i: Option<nat>)
    ensures i.Some? ==> i.value < |h| && h[i.value].Register? && h[i.value].client == c
  {
    if h == [] then None
    else
      var e := h[|h| - 1];
      if e.Register? && e.client == c then Some(|h| - 1)
      else if e.Unregister? && e.client == c then None
      else Registration(h[..|h| - 1], c)
  }

  /** The last entry for `f` in a SUBSCRIBE that the broker grants. */
  function GrantIn(filters: seq<TopicFilter>, f: Filter): Option<QoS> {
    if filters == [] || !Topic.ValidFilter(f) then None
    else if filters[|filters| - 1].filter == f then Some(filters[|filters| - 1].qos)
    else GrantIn(filters[..|filters| - 1], f)
  }

  /** The QoS that the last event affecting (`f`, `c`) grants; a clean registration affects every filter of `c`. */
  function Grant(h: seq<Event>, f: Filter, c: ClientId): Option<QoS> {
    if h == [] then None
    else
      var g, e := h[..|h| - 1], h[|h| - 1];
      match e
      case Register(d, _, _, clean) => if d == c && clean then None else Grant(g, f, c)
      case Unregister(d, _) => if d == c then None else Grant(g, f, c)
      case Subscribing(d, filters) =>
        if d == c && Registration(g, c).Some? && GrantIn(filters, f).Some? then GrantIn(filters, f) else Grant(g, f, c)
      case Unsubscribing(d, topics) => if d == c && f in topics then None else Grant(g, f, c)
  }

  /** The same, counting only what happened since `c` last registered. */
  function OwnGrant(h: seq<Event>, f: Filter, c: ClientId): Option<QoS> {
    match Registration(h, c)
    case None => None
    case Some(i) => GrantSince(h, i + 1, f, c)
  }

  function GrantSince(h: seq<Event>, i: nat, f: Filter, c: ClientId): Option<QoS>
    requires i <= |h|
    decreases |h|
  {
    if i == |h| then None
    else
      var g, e := h[..|h| - 1], h[|h| - 1];
      match e
      case Subscribing(d, filters) =>
        if d == c && GrantIn(filters, f).Some? then GrantIn(filters, f) else GrantSince(g, i, f, c)
      case Unsubscribing(d, topics) => if d == c && f in topics then None else GrantSince(g, i, f, c)
      case _ => GrantSince(g, i, f, c)
  }

  /** `c` last registered without a clean session over a session that was still in place. */
  predicate Inherits(h: seq<Event>, c: ClientId) {
    match Registration(h, c)
    case None => false
    case Some(i) => !h[i].cleanSession && Registration(h[..i], c).Some?
  }

  // ---------- the effect of one operation on one pair ----------

  function FilterLookup(ix: Index, f: Filter, c: ClientId): Option<QoS> {
    if c in ix.sessions && f in ix.sessions[c].filters then Some(ix.sessions[c].filters[f]) else None
  }

  lemma {:induction false} SubscribedEffect(ix: Index, d: ClientId, filters: seq<TopicFilter>, f: Filter, c: ClientId)
    ensures var r := Subscribed(ix, d, filters);
            var g := if d == c && d in ix.sessions then GrantIn(filters, f) else None;
            && Lookup(r.subs, f, c) == (if g.Some? then g else Lookup(ix.subs, f, c))
            && FilterLookup(r, f, c) == (if g.Some? then g else FilterLookup(ix, f, c))
            && (forall k | k in ix.sessions ::
                  && r.sessions[k].channel == ix.sessions[k].channel && r.sessions[k].will == ix.sessions[k].will
                  && r.sessions[k].cleanSession == ix.sessions[k].cleanSession)
    decreases |filters|
  {
    hide SubscribedOne, Lookup, FilterLookup, Topic.ValidFilter;
    if d in ix.sessions && filters != [] {
      var front := filters[..|filters| - 1];
      SubscribedEffect(ix, d, front, f, c);
      GrantValid(front, f);
      var before := Subscribed(ix, d, front);
      OneLookup(before, d, filters[|filters| - 1], f, c);
      OneFrame(before, d, filters[|filters| - 1]);
    }
  }

  lemma OneLookup(ix: Index, d: ClientId, tf: TopicFilter, f: Filter, c: ClientId)
    requires d in ix.sessions
    ensures var r, hit := SubscribedOne(ix, d, tf), d == c && tf.filter == f && Topic.ValidFilter(f);
            && Lookup(r.subs, f, c) == (if hit then Some(tf.qos) else Lookup(ix.subs, f, c))
            && FilterLookup(r, f, c) == (if hit then Some(tf.qos) else FilterLookup(ix, f, c))
  {
    hide Topic.ValidFilter;
  }

  lemma OneFrame(ix: Index, d: ClientId, tf: TopicFilter)
    requires d in ix.sessions
    ensures var r := SubscribedOne(ix, d, tf);
            && r.sessions.Keys == ix.sessions.Keys
            && (forall k | k in ix.sessions ::
                  && r.sessions[k].channel == ix.sessions[k].channel && r.sessions[k].will == ix.sessions[k].will
                  && r.sessions[k].cleanSession == ix.sessions[k].cleanSession)
  {
    hide Topic.ValidFilter, TreeWith;
  }

  lemma {:induction false} UnsubscribedEffect(ix: Index, d: ClientId, topics: seq<Filter>, f: Filter, c: ClientId)
    ensures var r := Unsubscribed(ix, d, topics);
            var gone := d == c && d in ix.sessions && f in topics;
            && Lookup(r.subs, f, c) == (if gone then None else Lookup(ix.subs, f, c))
            && FilterLookup(r, f, c) == (if gone then None else FilterLookup(ix, f, c))
            && (forall k | k in ix.sessions ::
                  && r.sessions[k].channel == ix.sessions[k].channel && r.sessions[k].will == ix.sessions[k].will
                  && r.sessions[k].cleanSession == ix.sessions[k].cleanSession)
    decreases |topics|
  {
    hide UnsubscribedOne, Lookup, FilterLookup;
    if d in ix.sessions && topics != [] {
      var front, last := topics[..|topics| - 1], topics[|topics| - 1];
      UnsubscribedEffect(ix, d, front, f, c);
      assert f in topics <==> f in front || f == last by { assert topics == front + [last]; }
      var before := Unsubscribed(ix, d, front);
      OneGone(before, d, last, f, c);
      OneGoneFrame(before, d, last);
    }
  }

  lemma OneGone(ix: Index, d: ClientId, topic: Filter, f: Filter, c: ClientId)
    requires d in ix.sessions
    ensures var r, hit := UnsubscribedOne(ix, d, topic), d == c && topic == f;
            && Lookup(r.subs, f, c) == (if hit then None else Lookup(ix.subs, f, c))
            && FilterLookup(r, f, c) == (if hit then None else FilterLookup(ix, f, c))
  {
  }

  lemma OneGoneFrame(ix: Index, d: ClientId, topic: Filter)
    requires d in ix.sessions
    ensures var r := UnsubscribedOne(ix, d, topic);
            && r.sessions.Keys == ix.sessions.Keys
            && (forall k | k in ix.sessions ::
                  && r.sessions[k].channel == ix.sessions[k].channel && r.sessions[k].will == ix.sessions[k].will
                  && r.sessions[k].cleanSession == ix.sessions[k].cleanSession)
  {
    hide TreeWithout;
  }

  // ---------- the index refines the history ----------

  /** A session exists exactly while a registration is in place, and holds what that registration gave. */
  lemma {:induction false} SessionsRefine(h: seq<Event>, c: ClientId)
    ensures c in Replay(h).sessions <==> Registration(h, c).Some?
    ensures Registration(h, c).Some? ==>
              var r, e := h[Registration(h, c).value], Replay(h).sessions[c];
              e.channel == r.channel && e.will == r.will && e.cleanSession == r.cleanSession
  {
    hide Subscribed, Unsubscribed;
    if h != [] {
      var g, e := h[..|h| - 1], h[|h| - 1];
      SessionsRefine(g, c);
      if e.Subscribing? {
        SubscribedEffect(Replay(g), e.client, e.filters, [], c);
      }
      if e.Unsubscribing? {
        UnsubscribedEffect(Replay(g), e.client, e.topics, [], c);
      }
    }
  }

  /**
    The tree refines the history: after any sequence of operations it maps
    (`f`, `c`) to `q` exactly when the last event affecting the pair granted `q`.
    A client without a session has no entry, and every filter in it is valid.
   */
  lemma {:induction false} TreeRefines(h: seq<Event>, f: Filter, c: ClientId)
    ensures Lookup(Replay(h).subs, f, c) == Grant(h, f, c)
    ensures Grant(h, f, c).Some? ==> Registration(h, c).Some? && Topic.ValidFilter(f)
  {
    hide Subscribed, Unsubscribed, Topic.ValidFilter;
    if h != [] {
      var g, e := h[..|h| - 1], h[|h| - 1];
      TreeRefines(g, f, c);
      SessionsRefine(g, c);
      if e.Subscribing? {
        SubscribedEffect(Replay(g), e.client, e.filters, f, c);
        GrantValid(e.filters, f);
      }
      if e.Unsubscribing? {
        UnsubscribedEffect(Replay(g), e.client, e.topics, f, c);
      }
    }
  }

  lemma GrantValid(filters: seq<TopicFilter>, f: Filter)
    ensures GrantIn(filters, f).Some? ==> Topic.ValidFilter(f)
  {
  }

  /** A session's own filters are the grants since it registered. */
  lemma {:induction false} FiltersRefine(h: seq<Event>, f: Filter, c: ClientId)
    ensures FilterLookup(Replay(h), f, c) == OwnGrant(h, f, c)
  {
    hide Subscribed, Unsubscribed, GrantIn;
    if h != [] {
      var g, e := h[..|h| - 1], h[|h| - 1];
      FiltersRefine(g, f, c);
      SessionsRefine(g, c);
      if e.Subscribing? {
        SubscribedEffect(Replay(g), e.client, e.filters, f, c);
      }
      if e.Unsubscribing? {
        UnsubscribedEffect(Replay(g), e.client, e.topics, f, c);
      }
    }
  }

  lemma OwnGrantWithin(h: seq<Event>, f: Filter, c: ClientId)
    ensures OwnGrant(h, f, c).Some? ==> Grant(h, f, c) == OwnGrant(h, f, c)
    ensures Registration(h, c).Some? && !Inherits(h, c) ==> Grant(h, f, c) == OwnGrant(h, f, c)
  {
    hide Grant, GrantSince, Touched, Replay;
    if Registration(h, c).Some? {
      GrantDecomposes(h, f, c);
      TreeRefines(h[..Registration(h, c).value], f, c);
    }
  }

  /** Each session's filters are in the tree with the same QoS, and are all of its subscriptions unless it inherits. */
  lemma FiltersWithinTree(h: seq<Event>, f: Filter, c: ClientId)
    requires c in Replay(h).sessions
    ensures FilterLookup(Replay(h), f, c).Some? ==> Lookup(Replay(h).subs, f, c) == FilterLookup(Replay(h), f, c)
    ensures !Inherits(h, c) ==> Lookup(Replay(h).subs, f, c) == FilterLookup(Replay(h), f, c)
  {
    hide Replay, OwnGrant, Grant, Inherits;
    SessionsRefine(h, c);
    TreeRefines(h, f, c);
    FiltersRefine(h, f, c);
    OwnGrantWithin(h, f, c);
  }

  /** Some event from `i` on subscribes or unsubscribes (`f`, `c`). */
  predicate Touched(h: seq<Event>, i: nat, f: Filter, c: ClientId)
    requires i <= |h|
    decreases |h|
  {
    i < |h| &&
    (var e := h[|h| - 1];
     || (e.Subscribing? && e.client == c && GrantIn(e.filters, f).Some?)
     || (e.Unsubscribing? && e.client == c && f in e.topics)
     || Touched(h[..|h| - 1], i, f, c))
  }

  lemma {:induction false} GrantDecomposes(h: seq<Event>, f: Filter, c: ClientId)
    requires Registration(h, c).Some?
    ensures var i := Registration(h, c).value;
            && Grant(h, f, c) == (if Touched(h, i + 1, f, c) then OwnGrant(h, f, c)
                                  else if h[i].cleanSession then None else Grant(h[..i], f, c))
            && (!Touched(h, i + 1, f, c) ==> OwnGrant(h, f, c).None?)
  {
    hide GrantIn;
    var g, e := h[..|h| - 1], h[|h| - 1];
    var i := Registration(h, c).value;
    if i < |h| - 1 {
      GrantDecomposes(g, f, c);
      assert g[..i] == h[..i];
    }
  }

  /**
    The two maps differ on a filter exactly when the session was registered
    without a clean session, the tree held the pair then, and neither a grant nor
    an unsubscribe of it has come since.
   */
  lemma MapsDifferExactly(h: seq<Event>, f: Filter, c: ClientId)
    requires c in Replay(h).sessions
    ensures Registration(h, c).Some?
    ensures var i := Registration(h, c).value;
            Lookup(Replay(h).subs, f, c) != FilterLookup(Replay(h), f, c) <==>
              !h[i].cleanSession && Lookup(Replay(h[..i]).subs, f, c).Some? && !Touched(h, i + 1, f, c)
  {
    hide Replay, OwnGrant, Grant, Touched;
    SessionsRefine(h, c);
    TreeRefines(h, f, c);
    FiltersRefine(h, f, c);
    GrantDecomposes(h, f, c);
    TreeRefines(h[..Registration(h, c).value], f, c);
  }

  /** An inherited subscription is in the tree but not among the session's filters. */
  lemma InheritedSubscription(c: ClientId, f: Filter, q: QoS)
    requires Topic.ValidFilter(f)
    ensures var h := [Register(c, 0, None, true), Subscribing(c, [TopicFilter(f, q)]), Register(c, 1, None, false)];
            && Lookup(Replay(h).subs, f, c) == Some(q) && FilterLookup(Replay(h), f, c) == None
  {
    hide Topic.ValidFilter, Replay;
    var h := [Register(c, 0, None, true), Subscribing(c, [TopicFilter(f, q)]), Register(c, 1, None, false)];
    TreeRefines(h, f, c);
    FiltersRefine(h, f, c);
    assert h[..2] == [Register(c, 0, None, true), Subscribing(c, [TopicFilter(f, q)])];
    assert h[..2][..1] == [Register(c, 0, None, true)];
    assert Registration(h[..2][..1], c).Some?;
    assert GrantIn([TopicFilter(f, q)], f) == Some(q);
  }

  // ---------- Wills ----------

  /** The operation at `j` publishes a Will: a non-graceful unregister of a session that has one. */
  predicate WillFires(h: seq<Event>, j: nat)
    requires j < |h|
  {
    var ix := Replay(h[..j]);
    h[j].Unregister? && !h[j].graceful && h[j].client in ix.sessions && ix.sessions[h[j].client].will.Some?
  }

  /** No event strictly between `i` and `j` registers or unregisters `c`. */
  predicate Undisturbed(h: seq<Event>, i: nat, j: nat, c: ClientId) {
    forall k | i < k < j && k < |h| :: !((h[k].Register? || h[k].Unregister?) && h[k].client == c)
  }

  lemma {:induction false} RegistrationIs(h: seq<Event>, i: nat, c: ClientId)
    requires i < |h|
    ensures Registration(h, c) == Some(i) <==>
              h[i].Register? && h[i].client == c && Undisturbed(h, i, |h|, c)
  {
    var n := |h| - 1;
    if i < n {
      RegistrationIs(h[..n], i, c);
      assert Undisturbed(h, i, |h|, c) <==>
        Undisturbed(h[..n], i, n, c) && !((h[n].Register? || h[n].Unregister?) && h[n].client == c);
    }
  }

  /**
    A registered Will fires exactly at the first later registration event of its
    client, if that is a non-graceful unregister: not after a graceful one, and
    not after a registration that replaced it.
   */
  lemma WillFiresExactly(h: seq<Event>, i: nat, j: nat)
    requires i < j < |h| && h[i].Register?
    ensures WillFires(h, j) && Registration(h[..j], h[j].client) == Some(i) <==>
              && h[i].will.Some? && h[j] == Unregister(h[i].client, false) && Undisturbed(h, i, j, h[i].client)
  {
    hide Replay;
    var g := h[..j];
    RegistrationIs(g, i, h[i].client);
    assert Undisturbed(g, i, j, h[i].client) <==> Undisturbed(h, i, j, h[i].client);
    if h[j].Unregister? {
      SessionsRefine(g, h[j].client);
    }
  }

  /** Whenever a Will fires, there is a registration it belongs to. */
  lemma WillHasOrigin(h: seq<Event>, j: nat)
    requires j < |h| && WillFires(h, j)
    ensures var r := Registration(h[..j], h[j].client);
            && r.Some? && h[r.value].will.Some?
            && Replay(h[..j]).sessions[h[j].client].will == h[r.value].will
  {
    hide Replay;
    SessionsRefine(h[..j], h[j].client);
  }

  /** Each registered Will fires at most once. */
  lemma WillFiresOnce(h: seq<Event>, j: nat, k: nat)
    requires j < |h| && k < |h| && WillFires(h, j) && WillFires(h, k)
    requires h[j].client == h[k].client
    requires Registration(h[..j], h[j].client) == Registration(h[..k], h[k].client)
    ensures j == k
  {
    hide WillFires, Replay;
    WillHasOrigin(h, j);
    var i := Registration(h[..j], h[j].client).value;
    WillFiresExactly(h, i, j);
    WillFiresExactly(h, i, k);
  }

  /** After its unregister a client is in no subscriber set, so nothing is fanned out to it. */
  lemma DepartedHasNoSubscriptions(h: seq<Event>, c: ClientId, graceful: bool, f: Filter)
    ensures Lookup(Replay(h + [Unregister(c, graceful)]).subs, f, c).None?
  {
    hide Replay;
    var e := Unregister(c, graceful);
    TreeRefines(h + [e], f, c);
    assert (h + [e])[..|h|] == h;
  }
}
