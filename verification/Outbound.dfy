/**
  The outbound side of one connection: the identifier counter, the
  unacknowledged publishes and the queue in front of its writer.
 */
module Outbound {
  import opened Wire
  import opened Packets
  import opened PacketIds

  /**
    `issued` counts the allocations; the source keeps it modulo 65536 (see
    `PacketIds.Counter`). `receiving` says that the writer still takes packets.
   */
  datatype Channel = Channel(open: bool, receiving: bool, issued: nat, inflight: map<U16, PublishPacket>,
                             outbox: seq<PublishPacket>)

  const FRESH := Channel(true, true, 0, map[], [])

  datatype Event =
    | Deliver(packet: PublishPacket, qos: QoS)  // a publish is fanned out to the subscriber
    | AllocateOther                             // another operation of the connection draws an identifier
    | Acked(id: U16)                            // PUBACK or PUBCOMP
    | Close                                     // `close`, which abandons the session the first time
    | WriterExit                                // the writer stops, after a failed write for instance

  /** The copy that a subscriber gets. */
  function Copy(p: PublishPacket, qos: QoS, id: Option<U16>): PublishPacket {
    p.(dup := false, qos := qos, retain := false, packetId := id)
  }

  function Delivered(ch: Channel, p: PublishPacket, q: QoS): Channel {
    var n := if q.AtMostOnce? then 0 else 1;
    var id := IdOf(ch.issued + 1);
    Channel(ch.open, ch.receiving, ch.issued + n,
            if n == 0 then ch.inflight else ch.inflight[id := p],
            if ch.receiving then ch.outbox + [Copy(p, q, if n == 0 then None else Some(id))] else ch.outbox)
  }

  function Step(ch: Channel, e: Event): Channel {
    match e
    case Deliver(p, q) => Delivered(ch, p, q)
    case AllocateOther => ch.(issued := ch.issued + 1)
    case Acked(id) => ch.(inflight := ch.inflight - {id})
    case Close => if ch.open then ch.(open := false, inflight := map[]) else ch
    case WriterExit => ch.(open := false, receiving := false)
  }

  function Run(h: seq<Event>): Channel {
    if h == [] then FRESH else Step(Run(h[..|h| - 1]), h[|h| - 1])
  }

  lemma RunSnoc(h: seq<Event>, e: Event)
    ensures Run(h + [e]) == Step(Run(h), e)
  {
    assert (h + [e])[..|h|] == h;
  }

  // ---------- the reference: what the history says ----------

  predicate Numbered(e: Event) {
    e.Deliver? && !e.qos.AtMostOnce?
  }

  predicate IsOpen(h: seq<Event>) {
    forall i | 0 <= i < |h| :: !h[i].Close? && !h[i].WriterExit?
  }

  /** The identifiers drawn so far. */
  function Issued(h: seq<Event>): nat {
    if h == [] then 0
    else Issued(h[..|h| - 1]) + if Numbered(h[|h| - 1]) || h[|h| - 1].AllocateOther? then 1 else 0
  }

  /** The publish last sent under `id`, unless something has settled it since. */
  function Outstanding(h: seq<Event>, id: U16): Option<PublishPacket> {
    if h == [] then None
    else
      var g, e := h[..|h| - 1], h[|h| - 1];
      if Numbered(e) && IdOf(Issued(h)) == id then Some(e.packet)
      else if Settles(g, e, id) then None
      else Outstanding(g, id)
  }

  /** An acknowledgement of `id`, or the close of a channel still open, settles what was sent under `id`. */
  predicate Settles(before: seq<Event>, e: Event, id: U16) {
    e == Acked(id) || (e.Close? && IsOpen(before))
  }

  /**
    Inflight conservation: over any run the table holds exactly the outstanding
    publishes, each under its own identifier.
   */
  lemma {:induction false} InflightIsOutstanding(h: seq<Event>, id: U16)
    ensures Run(h).issued == Issued(h) && (Run(h).open <==> IsOpen(h))
    ensures id in Run(h).inflight <==> Outstanding(h, id).Some?
    ensures id in Run(h).inflight ==> Outstanding(h, id) == Some(Run(h).inflight[id])
  {
    hide IdOf, IsOpen;
    OpenStep(h);
    if h != [] {
      InflightIsOutstanding(h[..|h| - 1], id);
    }
  }

  lemma OpenStep(h: seq<Event>)
    ensures h == [] ==> IsOpen(h)
    ensures h != [] ==>
              var e := h[|h| - 1];
              IsOpen(h) <==> IsOpen(h[..|h| - 1]) && !e.Close? && !e.WriterExit?
  {
  }

  /** The queue takes packets until the writer stops, and only then. */
  lemma {:induction false} ReceivingIs(h: seq<Event>)
    ensures Run(h).receiving <==> forall i | 0 <= i < |h| :: !h[i].WriterExit?
  {
    if h != [] {
      var g, e := h[..|h| - 1], h[|h| - 1];
      ReceivingIs(g);
      assert (forall i | 0 <= i < |h| :: !h[i].WriterExit?)
        <==> (forall i | 0 <= i < |g| :: !g[i].WriterExit?) && !e.WriterExit?;
    }
  }

  /** The event at `j` sends a publish with the `n`-th identifier that is drawn. */
  predicate SendAt(h: seq<Event>, n: nat, j: nat) {
    j < |h| && Numbered(h[j]) && Issued(h[..j + 1]) == n
  }

  predicate SettledAfter(h: seq<Event>, j: nat, id: U16) {
    exists i | j < i < |h| :: Settles(h[..i], h[i], id)
  }

  /**
    Within the first 65535 identifiers, `id` is in the table exactly when a publish
    was sent under it and nothing has settled it since; the table then holds that
    publish.
   */
  lemma {:induction false} InflightWithinFirstIds(h: seq<Event>, id: U16)
    requires Issued(h) <= 65535
    ensures id in Run(h).inflight ==> exists j | 0 <= j < |h| :: SendAt(h, id, j)
    ensures forall j | 0 <= j < |h| && SendAt(h, id, j) ::
              && (id in Run(h).inflight <==> !SettledAfter(h, j, id))
              && (id in Run(h).inflight ==> Run(h).inflight[id] == h[j].packet)
  {
    hide Run, SettledAfter, Outstanding, Issued;
    InflightIsOutstanding(h, id);
    if Outstanding(h, id).Some? {
      OutstandingIsSent(h, id);
    }
    forall j | 0 <= j < |h| && SendAt(h, id, j)
      ensures Outstanding(h, id) == if SettledAfter(h, j, id) then None else Some(h[j].packet)
    {
      SentIsOutstanding(h, id, j);
    }
  }

  lemma {:induction false} OutstandingIsSent(h: seq<Event>, id: U16)
    requires Issued(h) <= 65535 && Outstanding(h, id).Some?
    ensures exists j | 0 <= j < |h| :: SendAt(h, id, j)
  {
    var g, e := h[..|h| - 1], h[|h| - 1];
    if Numbered(e) && IdOf(Issued(h)) == id {
      assert h[..|h|] == h;
      assert SendAt(h, id, |h| - 1);
    } else {
      OutstandingIsSent(g, id);
      var j :| 0 <= j < |g| && SendAt(g, id, j);
      SendExtends(h, id, j);
      assert SendAt(h, id, j);
    }
  }

  lemma {:induction false} SentIsOutstanding(h: seq<Event>, id: U16, j: nat)
    requires Issued(h) <= 65535 && SendAt(h, id, j)
    ensures 1 <= id <= Issued(h)
    ensures Outstanding(h, id) == if SettledAfter(h, j, id) then None else Some(h[j].packet)
  {
    var g := h[..|h| - 1];
    if j == |h| - 1 {
      assert h[..|h|] == h;
      assert !SettledAfter(h, j, id);
    } else {
      SendExtends(h, id, j);
      SentIsOutstanding(g, id, j);
    }
  }

  lemma SendExtends(h: seq<Event>, id: U16, j: nat)
    requires j < |h| - 1
    ensures SendAt(h, id, j) <==> SendAt(h[..|h| - 1], id, j)
    ensures SettledAfter(h, j, id) <==> SettledAfter(h[..|h| - 1], j, id) || Settles(h[..|h| - 1], h[|h| - 1], id)
  {
    hide Issued, Settles;
    var g := h[..|h| - 1];
    assert g[..j + 1] == h[..j + 1];
    assert forall i | 0 <= i < |g| :: g[..i] == h[..i] && g[i] == h[i];
  }

  // ---------- several deliveries of one publish ----------

  function DeliveredAll(ch: Channel, p: PublishPacket, qs: seq<QoS>): Channel {
    if qs == [] then ch else Delivered(DeliveredAll(ch, p, qs[..|qs| - 1]), p, qs[|qs| - 1])
  }

  function Deliveries(p: PublishPacket, qs: seq<QoS>): seq<Event> {
    seq(|qs|, i requires 0 <= i < |qs| => Deliver(p, qs[i]))
  }

  function NumberedIn(qs: seq<QoS>): nat {
    if qs == [] then 0 else NumberedIn(qs[..|qs| - 1]) + if qs[|qs| - 1].AtMostOnce? then 0 else 1
  }

  /** The copies queued for `qs`; those above QoS 0 have consecutive identifiers. */
  function Copies(p: PublishPacket, qs: seq<QoS>, issued: nat): seq<PublishPacket> {
    if qs == [] then []
    else
      var q := qs[|qs| - 1];
      Copies(p, qs[..|qs| - 1], issued)
      + [Copy(p, q, if q.AtMostOnce? then None else Some(IdOf(issued + NumberedIn(qs))))]
  }

  /** What the `i`-th of the copies made for `qs` looks like. */
  predicate IsCopy(m: PublishPacket, p: PublishPacket, qs: seq<QoS>, i: nat, issued: nat)
    requires i < |qs|
  {
    && m.topic == p.topic && m.payload == p.payload && m.properties == p.properties
    && m.qos == qs[i] && !m.dup && !m.retain
    && m.packetId == (if qs[i].AtMostOnce? then None else Some(IdOf(issued + NumberedIn(qs[..i]) + 1)))
  }

  lemma {:induction false} CopiesShape(p: PublishPacket, qs: seq<QoS>, issued: nat)
    ensures var ms := Copies(p, qs, issued);
            |ms| == |qs| && forall i | 0 <= i < |ms| :: IsCopy(ms[i], p, qs, i, issued)
  {
    hide IdOf;
    if qs != [] {
      var front := qs[..|qs| - 1];
      CopiesShape(p, front, issued);
      assert forall i | 0 <= i < |front| :: front[..i] == qs[..i];
    }
  }

  /**
    Delivering one publish several times appends one copy per delivery to the
    queue and allocates one identifier per copy above QoS 0.
   */
  lemma {:induction false} DeliveredAllQueue(ch: Channel, p: PublishPacket, qs: seq<QoS>)
    ensures var r := DeliveredAll(ch, p, qs);
            && r.open == ch.open && r.receiving == ch.receiving && r.issued == ch.issued + NumberedIn(qs)
            && r.outbox == if ch.receiving then ch.outbox + Copies(p, qs, ch.issued) else ch.outbox
  {
    hide DeliveredAll, NumberedIn, Copies, IdOf, Copy;
    DeliveredAllUnfolds(ch, p, qs);
    if qs != [] {
      DeliveredAllQueue(ch, p, qs[..|qs| - 1]);
    }
  }

  lemma DeliveredAllUnfolds(ch: Channel, p: PublishPacket, qs: seq<QoS>)
    ensures qs == [] ==> DeliveredAll(ch, p, qs) == ch && NumberedIn(qs) == 0 && Copies(p, qs, ch.issued) == []
    ensures qs != [] ==>
              var front, q := qs[..|qs| - 1], qs[|qs| - 1];
              && DeliveredAll(ch, p, qs) == Delivered(DeliveredAll(ch, p, front), p, q)
              && NumberedIn(qs) == NumberedIn(front) + (if q.AtMostOnce? then 0 else 1)
              && Copies(p, qs, ch.issued)
                 == Copies(p, front, ch.issued)
                    + [Copy(p, q, if q.AtMostOnce? then None else Some(IdOf(ch.issued + NumberedIn(qs))))]
  {
    hide IdOf, Copy, Delivered;
  }

  /** It adds exactly the identifiers it allocates to the table, each with the publish. */
  lemma {:induction false} DeliveredAllTable(ch: Channel, p: PublishPacket, qs: seq<QoS>)
    ensures var r := DeliveredAll(ch, p, qs);
            forall id: U16 ::
              if NewId(ch.issued, r.issued, id) then id in r.inflight && r.inflight[id] == p
              else (id in r.inflight <==> id in ch.inflight) && (id in ch.inflight ==> r.inflight[id] == ch.inflight[id])
  {
    hide IdOf, NewId, Copy;
    if qs == [] {
      NewIdNone(ch.issued);
    } else {
      var s := DeliveredAll(ch, p, qs[..|qs| - 1]);
      DeliveredAllTable(ch, p, qs[..|qs| - 1]);
      DeliveredAllQueue(ch, p, qs[..|qs| - 1]);
      NewIdSnoc(ch.issued, s.issued);
    }
  }

  /** An identifier allocated after the first `a` and within the first `b` allocations. */
  predicate NewId(a: nat, b: nat, id: U16) {
    exists k | a < k <= b :: IdOf(k) == id
  }

  lemma NewIdNone(a: nat)
    ensures forall id: U16 :: !NewId(a, a, id)
  {
  }

  lemma NewIdSnoc(a: nat, b: nat)
    requires a <= b
    ensures forall id: U16 :: NewId(a, b + 1, id) <==> NewId(a, b, id) || id == IdOf(b + 1)
  {
    hide IdOf;
    forall id: U16
      ensures NewId(a, b + 1, id) <==> NewId(a, b, id) || id == IdOf(b + 1)
    {
    }
  }
}
