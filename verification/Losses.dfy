/**
  Where the guarantees of the handshake end: the fate of a message when
  identifiers come round again, and runs that lose a message or stall.
 */
module Losses {
  import opened Wire
  import opened Packets
  import opened PacketIds
  import opened Handshake
  import AckSlots
  import Receiver

  // ---------- the fate of a task's message, in any run ----------

  /** The PUBLISH of a launched task stands on the link at its place. */
  ghost predicate PlaceInv(s: World) {
    && s.served <= |s.sent|
    && forall k | Launched(s, k) ::
         s.tasks[k].place < |s.sent| && s.sent[s.tasks[k].place] == OnWire(s.tasks[k].message, k)
  }

  /** Firing or dropping a slot moves no task. */
  lemma FiredPlaces(s: World, id: U16, kind: Option<AckSlots.AckKind>)
    ensures var t := Fired(s, id, kind);
            && t.sent == s.sent && t.served == s.served && t.tasks.Keys == s.tasks.Keys
            && forall k | k in s.tasks ::
                 && t.tasks[k].message == s.tasks[k].message && t.tasks[k].place == s.tasks[k].place
                 && (t.tasks[k].phase.Allocated? <==> s.tasks[k].phase.Allocated?)
  {
  }

  lemma PlaceStep(s: World, a: Action)
    requires PlaceInv(s) && Enabled(s, a)
    ensures PlaceInv(Apply(s, a))
  {
    hide Server, OnWire, Fired, IdOf;
    match a {
      case Launch(k) => FiredPlaces(s, IdOf(k), None);
      case InstallComp(k) => FiredPlaces(s, IdOf(k), None);
      case DropSlot(id) => FiredPlaces(s, id, None);
      case Hear => PlaceHear(s);
      case _ =>
    }
  }

  lemma PlaceHear(s: World)
    requires PlaceInv(s) && Enabled(s, Hear)
    ensures PlaceInv(Apply(s, Hear))
  {
    hide Server, OnWire, Fired;
    var u := s.(heard := s.heard + 1);
    match Server(s).outbox[s.heard] {
      case Puback(id) => FiredPlaces(u, id, Some(AckSlots.PubackKind));
      case Pubrec(id) => FiredPlaces(u, id, Some(AckSlots.PubrecKind));
      case Pubcomp(id) => FiredPlaces(u, id, Some(AckSlots.PubcompKind));
      case _ =>
    }
  }

  lemma {:induction false} PlaceRun(s: World, h: seq<Action>)
    requires PlaceInv(s) && Legal(s, h)
    ensures PlaceInv(After(s, h))
    decreases |h|
  {
    hide Apply, Enabled, PlaceInv;
    if h != [] {
      PlaceStep(s, h[0]);
      PlaceRun(Apply(s, h[0]), h[1..]);
    }
  }

  /**
    The fate of every QoS 2 message, in any run and for any number of identifiers.
    Once the server has handled the task's PUBLISH, its message is lost if and
    only if the next packet of its identifier that the server handles is another
    PUBLISH. If that is a PUBREL, it is handed on there, once and with its
    content; if there is none yet, it is still stored.
   */
  lemma FateOfTask(h: seq<Action>, k: nat)
    requires Legal(START, h) && Launched(After(START, h), k)
    requires After(START, h).tasks[k].message.qos.ExactlyOnce?
    requires After(START, h).tasks[k].place < After(START, h).served
    ensures After(START, h).served <= |After(START, h).sent|
    ensures var s := After(START, h);
            var served, i, id := s.sent[..s.served], s.tasks[k].place, IdOf(k);
            var own := s.tasks[k].message.(packetId := Some(id));
            && served[i] == Publish(own)
            && (Receiver.Lost(served, id, i) <==>
                  Receiver.Next(served, i, id).Some? && Receiver.Opens(served[Receiver.Next(served, i, id).value], id))
            && (Receiver.Next(served, i, id).None? ==> id in Server(s).stored && Server(s).stored[id] == own)
            && (Receiver.Next(served, i, id).Some? ==>
                  var n := Receiver.Next(served, i, id).value;
                  && (served[n] == Pubrel(id) ==>
                        && |Receiver.HandedBy(served[..n + 1])| == 1
                        && Receiver.SameMessage(Receiver.HandedBy(served[..n + 1])[0], s.tasks[k].message, id))
                  && (forall m | 0 <= m < |served| ::
                        Receiver.HandedAt(served, id, i, m) <==> m == n && served[n] == Pubrel(id)))
  {
    hide Legal, After, Receiver.Run, Receiver.Next, Receiver.Lost, Receiver.HandedAt, Receiver.HandedBy, IdOf;
    PlaceRun(START, h);
    var s := After(START, h);
    Receiver.FateExact(s.sent[..s.served], IdOf(k), s.tasks[k].place);
  }

  // ---------- what does not hold ----------

  ghost predicate Reachable(s: World) {
    exists h :: Legal(START, h) && After(START, h) == s
  }

  lemma {:induction false} Extend(s: World, h: seq<Action>, a: Action)
    requires Legal(s, h) && Enabled(After(s, h), a)
    ensures Legal(s, h + [a]) && After(s, h + [a]) == Apply(After(s, h), a)
    decreases |h|
  {
    hide Apply, Enabled;
    if h == [] {
      assert ([a])[1..] == [];
      assert h + [a] == [a];
    } else {
      assert (h + [a])[0] == h[0] && (h + [a])[1..] == h[1..] + [a];
      Extend(Apply(s, h[0]), h[1..], a);
    }
  }

  lemma Reach(s: World, a: Action)
    requires Reachable(s) && Enabled(s, a)
    ensures Reachable(Apply(s, a))
  {
    hide Apply, Enabled, Legal, After;
    var h :| Legal(START, h) && After(START, h) == s;
    Extend(START, h, a);
    assert Legal(START, h + [a]) && After(START, h + [a]) == Apply(s, a);
  }

  lemma {:induction false} ReachIssued(n: nat)
    ensures Reachable(START.(issued := n))
  {
    if n == 0 {
      assert Legal(START, []) && After(START, []) == START;
    } else {
      ReachIssued(n - 1);
      Reach(START.(issued := n - 1), AllocateOther);
    }
  }

  lemma ServerAfterTwo(p: Packet, q: Packet)
    ensures Receiver.Run([]) == Receiver.FRESH
    ensures Receiver.Run([p]) == Receiver.Step(Receiver.FRESH, p)
    ensures Receiver.Run([p, q]) == Receiver.Step(Receiver.Step(Receiver.FRESH, p), q)
  {
    assert [p][..0] == [] && [p, q][..1] == [p];
  }

  /**
    The bound on identifiers is needed. Allocations 65536 and 65537 both get
    identifier 1, so the second PUBLISH overwrites the first at the server: a run
    with no timeout and no lost packet in which a launched message is neither
    handed on nor stored.
   */
  lemma IdReuseLosesMessage(a: PublishPacket, b: PublishPacket)
    requires a.qos.ExactlyOnce? && !a.dup && b.qos.ExactlyOnce? && !b.dup && a.payload != b.payload
    ensures exists s ::
              && Reachable(s) && s.served == |s.sent| && s.issued == 65537
              && Launched(s, 65536) && s.tasks[65536].message == a
              && Server(s).handed == []
              && forall id | id in Server(s).stored :: Server(s).stored[id].payload != a.payload
  {
    hide Receiver.Run, Reachable, IdOf;
    ReachCollision(a, b);
    ConsecutiveCollision();
    var p, q := OnWire(a, 65536), OnWire(b, 65537);
    ServerAfterTwo(p, q);
    var s4 := Collision(a, b);
    assert s4.sent[..0] == [] && s4.sent[..1] == [p] && s4.sent[..2] == [p, q];
    Reach(s4, Serve);
    var s5 := Apply(s4, Serve);
    Reach(s5, Serve);
    var s6 := Apply(s5, Serve);
    assert Launched(s6, 65536) && s6.tasks[65536].message == a;
  }

  /** Both tasks have launched under identifier 1; the second registration has closed the first waiter. */
  function Collision(a: PublishPacket, b: PublishPacket): World {
    World(65537, map[65536 := Task(a, Failed, 0), 65537 := Task(b, AwaitRec, 1)],
          map[1 := AckSlots.Slot(AckSlots.PubrecKind, 65537)],
          [OnWire(a, 65536), OnWire(b, 65537)], 0, 0, None)
  }

  lemma ReachTwo(a: PublishPacket, b: PublishPacket)
    requires a.qos.ExactlyOnce? && !a.dup && b.qos.ExactlyOnce? && !b.dup
    ensures Reachable(
              World(65537, map[65536 := Task(a, Allocated, 0), 65537 := Task(b, Allocated, 0)], map[], [], 0, 0, None))
  {
    hide Receiver.Run, Reachable, IdOf, OnWire;
    ServerAfterTwo(Pingreq, Pingreq);
    var s0 := START.(issued := 65535);
    ReachIssued(65535);
    assert s0.sent[..0] == [];
    Reach(s0, Allocate(a));
    var s1 := s0.(issued := 65536, tasks := map[65536 := Task(a, Allocated, 0)]);
    Reach(s1, Allocate(b));
    assert s1.(issued := 65537, tasks := map[65536 := Task(a, Allocated, 0), 65537 := Task(b, Allocated, 0)])
        == Apply(s1, Allocate(b));
  }

  lemma ReachCollision(a: PublishPacket, b: PublishPacket)
    requires a.qos.ExactlyOnce? && !a.dup && b.qos.ExactlyOnce? && !b.dup
    ensures Reachable(Collision(a, b))
  {
    hide Receiver.Run, Reachable, IdOf;
    var p, q := OnWire(a, 65536), OnWire(b, 65537);
    ServerAfterTwo(p, q);
    ConsecutiveCollision();
    ReachTwo(a, b);
    var s2 := World(65537, map[65536 := Task(a, Allocated, 0), 65537 := Task(b, Allocated, 0)], map[], [], 0, 0, None);
    assert s2.sent[..0] == [] && [p][..0] == [];
    Reach(s2, Launch(65536));
    var s3 := s2.(tasks := map[65536 := Task(a, AwaitRec, 0), 65537 := Task(b, Allocated, 0)],
                  slots := map[1 := AckSlots.Slot(AckSlots.PubrecKind, 65536)], sent := [p]);
    assert s3 == Apply(s2, Launch(65536));
    Reach(s3, Launch(65537));
    assert Collision(a, b) == Apply(s3, Launch(65537));
  }

  /**
    Completion is not guaranteed even without loss. PUBCOMP may be taken by the
    reader before the task has installed its slot: the message is handed on,
    both links are empty, and the task waits for an acknowledgement that has
    already gone by.
   */
  lemma HandshakeCanStall(m: PublishPacket)
    requires m.qos.ExactlyOnce? && !m.dup
    ensures exists s ::
              && Reachable(s) && s.served == |s.sent| && s.heard == |Server(s).outbox| && s.relPending.None?
              && 1 in s.tasks && s.tasks[1].phase.AwaitComp?
              && Server(s).handed == [Receiver.Released(m, 1)]
  {
    hide Receiver.Run, Receiver.Step, Reachable;
    var p, q := OnWire(m, 1), Pubrel(1);
    ServerAfterTwo(p, q);
    ServerAnswers(m);
    ReachReleased(m);
    assert [p, q][..2] == [p, q];
    var s6 := World(1, map[1 := Task(m, GotRec, 0)], map[], [p, q], 2, 1, None);
    assert Server(s6).outbox == [Pubrec(1), Pubcomp(1)];
    Reach(s6, Hear);
    var s7 := s6.(heard := 2);
    assert s7 == Apply(s6, Hear);
    Reach(s7, InstallComp(1));
    var s8 := Apply(s7, InstallComp(1));
    assert 1 in s8.tasks && s8.tasks[1].phase.AwaitComp?;
  }

  lemma ServerAnswers(m: PublishPacket)
    requires m.qos.ExactlyOnce? && !m.dup
    ensures Receiver.FRESH.outbox == []
    ensures var s := Receiver.Step(Receiver.FRESH, OnWire(m, 1));
            var t := Receiver.Step(s, Pubrel(1));
            s.outbox == [Pubrec(1)] && t.outbox == [Pubrec(1), Pubcomp(1)] && t.handed == [Receiver.Released(m, 1)]
  {
  }

  lemma ReachReleased(m: PublishPacket)
    requires m.qos.ExactlyOnce? && !m.dup
    ensures Reachable(World(1, map[1 := Task(m, GotRec, 0)], map[], [OnWire(m, 1), Pubrel(1)], 2, 1, None))
  {
    hide Receiver.Run, Receiver.Step, Reachable;
    var p, q := OnWire(m, 1), Pubrel(1);
    ServerAfterTwo(p, q);
    ServerAnswers(m);
    ReachFired(m);
    var s4 := FiredRec(m);
    assert s4.sent[..1] == [p] && [p, q][..1] == [p];
    Reach(s4, SendRel);
    var s5 := s4.(sent := [p, q], relPending := None);
    assert s5 == Apply(s4, SendRel);
    Reach(s5, Serve);
  }

  /** The reader has fired the PUBREC slot; the task has not run since. */
  function FiredRec(m: PublishPacket): World {
    World(1, map[1 := Task(m, GotRec, 0)], map[], [OnWire(m, 1)], 1, 1, Some(1))
  }

  lemma ReachLaunched(m: PublishPacket)
    requires m.qos.ExactlyOnce? && !m.dup
    ensures Reachable(World(1, map[1 := Task(m, AwaitRec, 0)], map[1 := AckSlots.Slot(AckSlots.PubrecKind, 1)],
                            [OnWire(m, 1)], 0, 0, None))
  {
    hide Receiver.Run, Reachable;
    ServerAfterTwo(OnWire(m, 1), Pingreq);
    ReachIssued(0);
    assert START.sent[..0] == [];
    Reach(START, Allocate(m));
    var s1 := START.(issued := 1, tasks := map[1 := Task(m, Allocated, 0)]);
    Reach(s1, Launch(1));
    assert World(1, map[1 := Task(m, AwaitRec, 0)], map[1 := AckSlots.Slot(AckSlots.PubrecKind, 1)], [OnWire(m, 1)], 0, 0, None)
        == Apply(s1, Launch(1));
  }

  lemma ReachFired(m: PublishPacket)
    requires m.qos.ExactlyOnce? && !m.dup
    ensures Reachable(FiredRec(m))
  {
    hide Receiver.Run, Receiver.Step, Reachable;
    var p := OnWire(m, 1);
    ServerAfterTwo(p, Pingreq);
    ServerAnswers(m);
    ReachLaunched(m);
    var s2 := World(1, map[1 := Task(m, AwaitRec, 0)], map[1 := AckSlots.Slot(AckSlots.PubrecKind, 1)], [p], 0, 0, None);
    assert s2.sent[..0] == [] && s2.sent[..1] == [p];
    Reach(s2, Serve);
    var s3 := s2.(served := 1);
    assert Server(s3).outbox == [Pubrec(1)];
    Reach(s3, Hear);
    assert FiredRec(m) == Apply(s3, Hear);
  }
}
