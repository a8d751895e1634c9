/**
  The QoS 1 and QoS 2 handshakes end to end: the client's publishing tasks, its
  reader, the two FIFO links and the server's receiver, stepping in any order.

  A link is the log of what was put on it and a cursor for what was taken off.
  The server is `Receiver.Run` of the packets it has taken. Server and client may
  stop at any time, which is a run with no further step of theirs.
 */
module Handshake {
  import opened Wire
  import opened Packets
  import opened PacketIds
  import opened AckSlots
  import Receiver

  /** Where one call of `send_publish` stands. `GotRec`: PUBREC has fired, the PUBCOMP slot is not there yet. */
  datatype Phase = Allocated | AwaitAck | AwaitRec | GotRec | AwaitComp | Completed | Failed

  /** `place` is the position of the task's PUBLISH on the link, once it is there. */
  datatype Task = Task(message: PublishPacket, phase: Phase, place: nat)

  datatype World = World(
    issued: nat,               // packet identifiers allocated so far
    tasks: map<nat, Task>,     // by the number of their allocation
    slots: map<U16, Slot>,     // pending_acks; the waiter is a task
    sent: seq<Packet>,         // client to server
    served: nat,               // how many of them the server has handled
    heard: nat,                // how many of the server's packets the reader has taken
    relPending: Option<U16>)   // the reader has fired a PUBREC and is about to send its PUBREL

  const START := World(0, map[], map[], [], 0, 0, None)

  datatype Action =
    | Allocate(message: PublishPacket)  // a task draws an identifier
    | Launch(k: nat)                    // it installs its first slot and enqueues the PUBLISH
    | InstallComp(k: nat)               // PUBREC fired: it installs the PUBCOMP slot
    | TimeOut(k: nat)                   // its timer fires
    | DropSlot(id: U16)                 // a slot leaves the table without its own acknowledgement
    | AllocateOther                     // another operation draws an identifier
    | SendOther(packet: Packet)         // another operation, or the reader, sends a packet
    | Serve                             // the server handles the next packet
    | Hear                              // the reader takes the next packet
    | SendRel                           // the reader answers the PUBREC it has fired

  function Server(s: World): Receiver.State
    requires s.served <= |s.sent|
  {
    Receiver.Run(s.sent[..s.served])
  }

  predicate Waits(phase: Phase) {
    phase.AwaitAck? || phase.AwaitRec? || phase.AwaitComp?
  }

  predicate Enabled(s: World, a: Action) {
    && s.served <= |s.sent|
    && s.heard <= |Server(s).outbox|
    && match a
       case Allocate(m) => !m.qos.AtMostOnce? && !m.dup
       case Launch(k) => k in s.tasks && s.tasks[k].phase.Allocated?
       case InstallComp(k) => k in s.tasks && s.tasks[k].phase.GotRec?
       case TimeOut(k) => k in s.tasks && Waits(s.tasks[k].phase)
       case DropSlot(_) => true
       case AllocateOther => true
       case SendOther(p) => !p.Pubrel? && !(p.Publish? && !p.publish.qos.AtMostOnce?)
       case Serve => s.served < |s.sent|
       case Hear => s.relPending.None? && s.heard < |Server(s).outbox|
       case SendRel => s.relPending.Some?
  }

  function OnWire(m: PublishPacket, k: nat): Packet {
    Publish(m.(packetId := Some(IdOf(k))))
  }

  /** What a launched task waits for first. */
  function FirstKind(m: PublishPacket): AckKind {
    if m.qos.AtLeastOnce? then PubackKind else PubrecKind
  }

  /** The phase in which a task waits on a slot of this kind. */
  function WaitPhase(kind: AckKind): Option<Phase> {
    match kind
    case PubackKind => Some(AwaitAck)
    case PubrecKind => Some(AwaitRec)
    case PubcompKind => Some(AwaitComp)
    case _ => None
  }

  /** The waiter's receiver gets a value if the acknowledgement is of the slot's kind, otherwise it sees a dropped sender. */
  function Woken(t: Task, slot: AckKind, agree: bool): Task {
    if WaitPhase(slot) == Some(t.phase)
    then t.(phase := if !agree then Failed else if slot.PubrecKind? then GotRec else Completed)
    else t
  }

  /** The slot of `id` leaves the table, fired by an acknowledgement of `kind` or dropped. */
  function Fired(s: World, id: U16, kind: Option<AckKind>): World {
    if id !in s.slots then s
    else
      var slot := s.slots[id];
      s.(slots := s.slots - {id},
         tasks := if slot.waiter in s.tasks
                  then s.tasks[slot.waiter := Woken(s.tasks[slot.waiter], slot.kind, kind == Some(slot.kind))]
                  else s.tasks)
  }

  /** Task `k` installs a slot under its identifier, dropping one that is there, and waits on it. */
  function Installed(s: World, k: nat, kind: AckKind, place: nat): World
    requires k in s.tasks && WaitPhase(kind).Some?
  {
    var freed := Fired(s, IdOf(k), None);
    freed.(slots := freed.slots[IdOf(k) := Slot(kind, k)],
           tasks := freed.tasks[k := s.tasks[k].(phase := WaitPhase(kind).value, place := place)])
  }

  function Heard(s: World, p: Packet): World {
    match p
    case Puback(id) => Fired(s, id, Some(PubackKind))
    case Pubrec(id) => Fired(s, id, Some(PubrecKind)).(relPending := Some(id))
    case Pubcomp(id) => Fired(s, id, Some(PubcompKind))
    case _ => s
  }

  function Apply(s: World, a: Action): World
    requires Enabled(s, a)
  {
    match a
    case Allocate(m) => s.(issued := s.issued + 1, tasks := s.tasks[s.issued + 1 := Task(m, Allocated, 0)])
    case Launch(k) => Installed(s, k, FirstKind(s.tasks[k].message), |s.sent|)
                      .(sent := s.sent + [OnWire(s.tasks[k].message, k)])
    case InstallComp(k) => Installed(s, k, PubcompKind, s.tasks[k].place)
    case TimeOut(k) => s.(tasks := s.tasks[k := s.tasks[k].(phase := Failed)])
    case DropSlot(id) => Fired(s, id, None)
    case AllocateOther => s.(issued := s.issued + 1)
    case SendOther(p) => s.(sent := s.sent + [p])
    case Serve => s.(served := s.served + 1)
    case Hear => Heard(s.(heard := s.heard + 1), Server(s).outbox[s.heard])
    case SendRel => s.(sent := s.sent + [Pubrel(s.relPending.value)], relPending := None)
  }

  ghost predicate Legal(s: World, h: seq<Action>)
    decreases |h|
  {
    h == [] || (Enabled(s, h[0]) && Legal(Apply(s, h[0]), h[1..]))
  }

  ghost function After(s: World, h: seq<Action>): World
    requires Legal(s, h)
    decreases |h|
  {
    if h == [] then s else After(Apply(s, h[0]), h[1..])
  }

  // ---------- histories in which identifiers are not reused ----------

  /** Every PUBREL of `id` comes after a QoS 2 PUBLISH of `id`. */
  ghost predicate OpensFirst(h: seq<Packet>, id: U16) {
    forall j | 0 <= j < |h| && h[j] == Pubrel(id) :: exists i | 0 <= i < j :: Receiver.Opens(h[i], id)
  }

  lemma {:induction false} OpeningCounted(h: seq<Packet>, id: U16, i: nat)
    requires i < |h| && Receiver.Opens(h[i], id)
    ensures Receiver.Openings(h, id) >= 1
  {
    if i < |h| - 1 {
      OpeningCounted(h[..|h| - 1], id, i);
    }
  }

  lemma {:induction false} ReleaseFound(h: seq<Packet>, id: U16)
    requires Receiver.Releases(h, id) >= 1
    ensures exists i | 0 <= i < |h| :: h[i] == Pubrel(id)
  {
    if h[|h| - 1] != Pubrel(id) {
      ReleaseFound(h[..|h| - 1], id);
      var i :| 0 <= i < |h| - 1 && h[..|h| - 1][i] == Pubrel(id);
      assert h[i] == Pubrel(id);
    }
  }

  /** Opened once, an identifier is never overwritten. */
  lemma {:induction false} NoOverwrite(h: seq<Packet>, id: U16)
    ensures Receiver.Overwrites(h, id) <= Receiver.Openings(h, id)
    ensures Receiver.Openings(h, id) <= 1 ==> Receiver.Overwrites(h, id) == 0
  {
    if h != [] {
      var g := h[..|h| - 1];
      NoOverwrite(g, id);
      Receiver.PublishesConserved(g, id);
      Receiver.StoredIsUnreleased(g, id);
    }
  }

  /** Opened once and only then released, a message is handed on at the first PUBREL and never again. */
  lemma ReleasedOnce(h: seq<Packet>, id: U16)
    requires OpensFirst(h, id) && Receiver.Openings(h, id) <= 1
    ensures Receiver.Releases(h, id) >= 1 ==> Receiver.Deliveries(Receiver.Run(h).handed, QoS.ExactlyOnce, id) == 1
  {
    if Receiver.Releases(h, id) >= 1 {
      Receiver.PublishesConserved(h, id);
      NoOverwrite(h, id);
      LastReleases(h, id);
    }
  }

  lemma LastReleases(h: seq<Packet>, id: U16)
    requires OpensFirst(h, id) && Receiver.Openings(h, id) <= 1 && Receiver.Releases(h, id) >= 1
    ensures Receiver.Openings(h, id) == 1 && id !in Receiver.Run(h).stored
  {
    ReleaseFound(h, id);
    var j :| 0 <= j < |h| && h[j] == Pubrel(id);
    var i :| 0 <= i < j && Receiver.Opens(h[i], id);
    OpeningCounted(h, id, i);
    Receiver.StoredIsUnreleased(h, id);
    NotOpenAgain(h, id, i, j);
  }

  lemma {:induction false} NotOpenAgain(h: seq<Packet>, id: U16, i: nat, j: nat)
    requires i < j < |h| && Receiver.Opens(h[i], id) && h[j] == Pubrel(id) && Receiver.Openings(h, id) <= 1
    ensures Receiver.Unreleased(h, id).None?
  {
    var g := h[..|h| - 1];
    if j < |h| - 1 {
      OpeningCounted(g, id, i);
      NotOpenAgain(g, id, i, j);
    }
  }

  lemma {:induction false} OpenedFound(h: seq<Packet>, id: U16)
    requires id in Receiver.OpenedIds(h)
    ensures exists i | 0 <= i < |h| :: Receiver.Opens(h[i], id)
  {
    var g := h[..|h| - 1];
    if !Receiver.Opens(h[|h| - 1], id) {
      OpenedFound(g, id);
      var i :| 0 <= i < |g| && Receiver.Opens(g[i], id);
      assert Receiver.Opens(h[i], id);
    }
  }

  lemma {:induction false} ReleasedFound(h: seq<Packet>, id: U16)
    requires id in Receiver.ReleasedIds(h)
    ensures Receiver.Releases(h, id) >= 1
  {
    if h[|h| - 1] != Pubrel(id) {
      ReleasedFound(h[..|h| - 1], id);
    }
  }

  lemma {:induction false} AnswerListed(out: seq<Packet>, id: U16)
    ensures Puback(id) in out ==> id in Receiver.PubackIds(out)
    ensures Pubrec(id) in out ==> id in Receiver.PubrecIds(out)
    ensures Pubcomp(id) in out ==> id in Receiver.PubcompIds(out)
  {
    if out != [] {
      AnswerListed(out[..|out| - 1], id);
      assert out == out[..|out| - 1] + [out[|out| - 1]];
    }
  }

  lemma {:induction false} PostedFound(h: seq<Packet>, id: U16)
    requires id in Receiver.PostedIds(h)
    ensures Receiver.Postings(h, id) >= 1
  {
    if !Receiver.Posts(h[|h| - 1], id) {
      PostedFound(h[..|h| - 1], id);
    }
  }

  /** A PUBACK or PUBREC says that the PUBLISH was handled; a PUBCOMP, that the PUBREL was. */
  lemma AnswersMean(h: seq<Packet>, id: U16)
    ensures Puback(id) in Receiver.Run(h).outbox ==> Receiver.Postings(h, id) >= 1
    ensures Pubrec(id) in Receiver.Run(h).outbox ==> exists i | 0 <= i < |h| :: Receiver.Opens(h[i], id)
    ensures Pubcomp(id) in Receiver.Run(h).outbox ==> Receiver.Releases(h, id) >= 1
  {
    Receiver.EveryPhaseAnswered(h);
    AnswerListed(Receiver.Run(h).outbox, id);
    if id in Receiver.PostedIds(h) {
      PostedFound(h, id);
    }
    if id in Receiver.OpenedIds(h) {
      OpenedFound(h, id);
    }
    if id in Receiver.ReleasedIds(h) {
      ReleasedFound(h, id);
    }
  }

  /** What the server hands on for `id` is what some QoS 2 PUBLISH of `id` carried. */
  lemma {:induction false} HandedContent(h: seq<Packet>, id: U16, m: PublishPacket)
    requires m in Receiver.Run(h).handed && m.qos.ExactlyOnce? && m.packetId == Some(id)
    ensures exists i | 0 <= i < |h| :: Receiver.Opens(h[i], id) && m == Receiver.Released(h[i].publish, id)
  {
    var g, p := h[..|h| - 1], h[|h| - 1];
    var s := Receiver.Run(g);
    if m in s.handed {
      HandedContent(g, id, m);
      var i :| 0 <= i < |g| && Receiver.Opens(g[i], id) && m == Receiver.Released(g[i].publish, id);
      assert Receiver.Opens(h[i], id) && m == Receiver.Released(h[i].publish, id);
    } else {
      assert p == Pubrel(id) && id in s.stored;
      Receiver.StoredIsUnreleased(g, id);
      UnreleasedFound(g, id);
      var i :| 0 <= i < |g| && Receiver.Opens(g[i], id) && g[i].publish == s.stored[id];
      assert Receiver.Opens(h[i], id) && m == Receiver.Released(h[i].publish, id);
    }
  }

  /** What the server hands on at QoS 1 is what a PUBLISH carried. */
  lemma {:induction false} PostedContent(h: seq<Packet>, id: U16, m: PublishPacket)
    requires m in Receiver.Run(h).handed && m.qos.AtLeastOnce? && m.packetId == Some(id)
    ensures exists i | 0 <= i < |h| :: Receiver.Posts(h[i], id) && m == h[i].publish
  {
    var g, p := h[..|h| - 1], h[|h| - 1];
    if m in Receiver.Run(g).handed {
      PostedContent(g, id, m);
      var i :| 0 <= i < |g| && Receiver.Posts(g[i], id) && m == g[i].publish;
      assert Receiver.Posts(h[i], id) && m == h[i].publish;
    } else {
      Receiver.StoredIsQos2(g);
      assert Receiver.Posts(h[|h| - 1], id) && m == h[|h| - 1].publish;
    }
  }

  lemma {:induction false} UnreleasedFound(h: seq<Packet>, id: U16)
    requires Receiver.Unreleased(h, id).Some?
    ensures exists i | 0 <= i < |h| :: Receiver.Opens(h[i], id) && h[i].publish == Receiver.Unreleased(h, id).value
  {
    var g := h[..|h| - 1];
    if !Receiver.Opens(h[|h| - 1], id) {
      UnreleasedFound(g, id);
      var i :| 0 <= i < |g| && Receiver.Opens(g[i], id) && g[i].publish == Receiver.Unreleased(g, id).value;
      assert Receiver.Opens(h[i], id);
    }
  }

  // ---------- the invariant ----------

  predicate Launched(s: World, k: nat) {
    k in s.tasks && !s.tasks[k].phase.Allocated?
  }

  predicate LaunchedAt(s: World, q: QoS, k: nat) {
    Launched(s, k) && s.tasks[k].message.qos == q
  }

  /** The packet is a PUBLISH of this identifier above QoS 0. */
  predicate Carries(p: Packet, id: U16) {
    Receiver.Opens(p, id) || Receiver.Posts(p, id)
  }

  /** The client's side of the links: one PUBLISH per launched task, its own, and no PUBREL before it. */
  ghost predicate SentInv(s: World) {
    && (forall id: U16 :: Receiver.Openings(s.sent, id) == if LaunchedAt(s, QoS.ExactlyOnce, id) then 1 else 0)
    && (forall id: U16 :: Receiver.Postings(s.sent, id) == if LaunchedAt(s, AtLeastOnce, id) then 1 else 0)
    && (forall i, id: U16 | 0 <= i < |s.sent| && Carries(s.sent[i], id) ::
          id in s.tasks && s.sent[i] == OnWire(s.tasks[id].message, id))
    && (forall id: U16 :: OpensFirst(s.sent, id))
  }

  /** A task waits in the phases of its own QoS, and on the slot of its identifier if there is one. */
  predicate PhaseFits(t: Task) {
    && !t.message.qos.AtMostOnce? && !t.message.dup
    && (t.phase.AwaitAck? ==> t.message.qos.AtLeastOnce?)
    && (t.phase.AwaitRec? || t.phase.GotRec? || t.phase.AwaitComp? ==> t.message.qos.ExactlyOnce?)
  }

  ghost predicate TaskInv(s: World) {
    && (forall k | k in s.tasks :: 1 <= k <= s.issued && PhaseFits(s.tasks[k]))
    && (forall id | id in s.slots ::
          && s.slots[id].waiter == id && Launched(s, id)
          && (Waits(s.tasks[id].phase) ==> WaitPhase(s.slots[id].kind) == Some(s.tasks[id].phase)))
  }

  /** The acknowledgement that completes a task. */
  function LastAnswer(t: Task, k: U16): Packet {
    if t.message.qos.AtLeastOnce? then Puback(k) else Pubcomp(k)
  }

  ghost predicate HeardInv(s: World)
    requires s.served <= |s.sent|
  {
    && s.heard <= |Server(s).outbox|
    && (s.relPending.Some? ==> Pubrec(s.relPending.value) in Server(s).outbox)
    && (forall k: U16 | k in s.tasks && s.tasks[k].phase.Completed? :: LastAnswer(s.tasks[k], k) in Server(s).outbox)
  }

  ghost predicate Inv(s: World) {
    s.issued <= 65535 && s.served <= |s.sent| && SentInv(s) && TaskInv(s) && HeardInv(s)
  }

  /** Firing or dropping a slot changes nothing but the slot and its waiter. */
  predicate OnlyTasks(s: World, t: World) {
    && t.sent == s.sent && t.served == s.served && t.issued == s.issued && t.heard == s.heard && t.relPending == s.relPending
    && t.tasks.Keys == s.tasks.Keys
    && forall k | k in s.tasks :: t.tasks[k].message == s.tasks[k].message
  }

  /** The kind of slot that completes a task. */
  function LastKind(t: Task): AckKind {
    if t.message.qos.AtLeastOnce? then PubackKind else PubcompKind
  }

  lemma FiredTasks(s: World, id: U16, kind: Option<AckKind>)
    requires TaskInv(s)
    ensures TaskInv(Fired(s, id, kind))
  {
  }

  lemma FiredFrame(s: World, id: U16, kind: Option<AckKind>)
    requires TaskInv(s)
    ensures var t := Fired(s, id, kind);
            && OnlyTasks(s, t)
            && (forall k | k in s.tasks ::
                  && t.tasks[k].place == s.tasks[k].place
                  && (t.tasks[k].phase.Allocated? <==> s.tasks[k].phase.Allocated?)
                  && (t.tasks[k].phase.Completed? ==>
                        s.tasks[k].phase.Completed? || (k == id && kind == Some(LastKind(s.tasks[k])))))
  {
  }

  lemma InstalledTasks(s: World, k: nat, kind: AckKind, place: nat)
    requires TaskInv(s) && k in s.tasks && s.issued <= 65535
    requires WaitPhase(kind).Some? && PhaseFits(s.tasks[k].(phase := WaitPhase(kind).value))
    ensures TaskInv(Installed(s, k, kind, place))
  {
    hide Fired, IdOf, OnlyTasks;
    SmallId(k);
    FiredTasks(s, k, None);
    FiredFrame(s, k, None);
    OnlyTasksMeans(s, Fired(s, k, None));
  }

  lemma SmallId(k: nat)
    ensures 1 <= k <= 65535 ==> IdOf(k) == k
  {
  }

  lemma OnlyTasksMeans(s: World, t: World)
    requires OnlyTasks(s, t)
    ensures t.tasks.Keys == s.tasks.Keys && t.issued == s.issued
  {
  }

  lemma InstalledFrame(s: World, k: nat, kind: AckKind, place: nat)
    requires TaskInv(s) && k in s.tasks && WaitPhase(kind).Some?
    ensures var t := Installed(s, k, kind, place);
            && OnlyTasks(s, t)
            && (forall j | j in s.tasks && j != k ::
                  && (t.tasks[j].phase.Allocated? <==> s.tasks[j].phase.Allocated?)
                  && (t.tasks[j].phase.Completed? ==> s.tasks[j].phase.Completed?))
            && t.tasks[k].phase == WaitPhase(kind).value
  {
    hide Fired, TaskInv;
    FiredFrame(s, IdOf(k), None);
  }

  /** What was heard stays heard. */
  lemma HeardKeeps(s: World, t: World)
    requires s.served <= |s.sent| && t.served <= |t.sent| && HeardInv(s)
    requires Server(s).outbox <= Server(t).outbox && t.heard <= |Server(t).outbox|
    requires t.relPending.Some? ==> Pubrec(t.relPending.value) in Server(t).outbox
    requires forall k: U16 | k in t.tasks && t.tasks[k].phase.Completed? ::
               || LastAnswer(t.tasks[k], k) in Server(t).outbox
               || (k in s.tasks && s.tasks[k].phase.Completed? && t.tasks[k].message == s.tasks[k].message)
    ensures HeardInv(t)
  {
    hide Server;
    var a, b := Server(s).outbox, Server(t).outbox;
    assert forall p | p in a :: p in b;
  }

  /** The same packets on the link and the same launched tasks keep the link's invariant. */
  lemma SentKeeps(s: World, t: World)
    requires SentInv(s) && t.sent == s.sent
    requires forall k | k in s.tasks :: k in t.tasks && t.tasks[k].message == s.tasks[k].message
    requires forall k :: Launched(t, k) <==> Launched(s, k)
    ensures SentInv(t)
  {
    hide Receiver.Openings, Receiver.Postings, OpensFirst, OnWire, Carries;
    assert forall q, k :: LaunchedAt(t, q, k) <==> LaunchedAt(s, q, k);
  }

  lemma PostingsAppend(h: seq<Packet>, p: Packet, id: U16)
    ensures Receiver.Postings(h + [p], id) == Receiver.Postings(h, id) + if Receiver.Posts(p, id) then 1 else 0
  {
    assert (h + [p])[..|h|] == h;
  }

  lemma OpeningsAppend(h: seq<Packet>, p: Packet, id: U16)
    ensures Receiver.Openings(h + [p], id) == Receiver.Openings(h, id) + if Receiver.Opens(p, id) then 1 else 0
  {
    assert (h + [p])[..|h|] == h;
  }

  lemma OpensFirstAppend(h: seq<Packet>, p: Packet, id: U16)
    requires OpensFirst(h, id)
    requires p == Pubrel(id) ==> exists i | 0 <= i < |h| :: Receiver.Opens(h[i], id)
    ensures OpensFirst(h + [p], id)
  {
    var g := h + [p];
    forall j | 0 <= j < |g| && g[j] == Pubrel(id) ensures exists i | 0 <= i < j :: Receiver.Opens(g[i], id) {
      if j < |h| {
        assert h[j] == Pubrel(id);
      }
      var i :| 0 <= i < j && i < |h| && Receiver.Opens(h[i], id);
      assert g[i] == h[i];
    }
  }

  /** One more packet on the link to the server. */
  lemma SentAppend(s: World, t: World, p: Packet)
    requires SentInv(s) && t.sent == s.sent + [p]
    requires forall k | k in s.tasks :: k in t.tasks && t.tasks[k].message == s.tasks[k].message
    requires forall id: U16 :: Carries(p, id) ==> id in t.tasks && p == OnWire(t.tasks[id].message, id)
    requires forall id: U16 :: LaunchedAt(t, QoS.ExactlyOnce, id) <==> LaunchedAt(s, QoS.ExactlyOnce, id) || Receiver.Opens(p, id)
    requires forall id: U16 :: LaunchedAt(t, AtLeastOnce, id) <==> LaunchedAt(s, AtLeastOnce, id) || Receiver.Posts(p, id)
    requires forall id: U16 :: Carries(p, id) ==> !Launched(s, id)
    requires forall id: U16 :: p == Pubrel(id) ==> exists i | 0 <= i < |s.sent| :: Receiver.Opens(s.sent[i], id)
    ensures SentInv(t)
  {
    hide Receiver.Openings, Receiver.Postings, OpensFirst, OnWire, Launched;
    forall id: U16
      ensures Receiver.Openings(t.sent, id) == if LaunchedAt(t, QoS.ExactlyOnce, id) then 1 else 0
      ensures Receiver.Postings(t.sent, id) == if LaunchedAt(t, AtLeastOnce, id) then 1 else 0
      ensures OpensFirst(t.sent, id)
    {
      OpeningsAppend(s.sent, p, id);
      PostingsAppend(s.sent, p, id);
      OpensFirstAppend(s.sent, p, id);
    }
    forall i, id: U16 | 0 <= i < |t.sent| && Carries(t.sent[i], id)
      ensures id in t.tasks && t.sent[i] == OnWire(t.tasks[id].message, id)
    {
      if i < |s.sent| {
        assert t.sent[i] == s.sent[i];
      } else {
        assert t.sent[i] == p;
      }
    }
  }

  lemma ServedPrefix(s: World, t: World)
    requires s.served <= |s.sent| && t.served == s.served && s.sent <= t.sent
    ensures Server(t) == Server(s)
  {
    assert t.sent[..t.served] == s.sent[..s.served];
  }

  lemma ServeExtends(s: World)
    requires s.served < |s.sent|
    ensures var t := s.(served := s.served + 1); Server(s).outbox <= Server(t).outbox
  {
    var h := s.sent[..s.served + 1];
    assert h[..|h| - 1] == s.sent[..s.served];
    Receiver.StepReplies(Server(s), h[|h| - 1]);
  }

  lemma LaunchKeeps(s: World, k: nat)
    requires Inv(s) && Enabled(s, Launch(k))
    ensures Inv(Apply(s, Launch(k)))
  {
    hide Server, SentInv, TaskInv, HeardInv, Installed;
    TaskBounds(s, k);
    var t := Apply(s, Launch(k));
    var m := s.tasks[k].message;
    InstalledTasks(s, k, FirstKind(m), |s.sent|);
    InstalledFrame(s, k, FirstKind(m), |s.sent|);
    TasksOnly(Installed(s, k, FirstKind(m), |s.sent|), t);
    ServedPrefix(s, t);
    RelHeard(s);
    HeardKeeps(s, t);
    LaunchSent(s, t, k);
  }

  lemma LaunchSent(s: World, t: World, k: nat)
    requires SentInv(s) && 1 <= k <= 65535 && k in s.tasks && s.tasks[k].phase.Allocated? && PhaseFits(s.tasks[k])
    requires t.sent == s.sent + [OnWire(s.tasks[k].message, k)] && Launched(t, k)
    requires t.tasks.Keys == s.tasks.Keys
    requires forall j | j in s.tasks :: t.tasks[j].message == s.tasks[j].message
    requires forall j | j in s.tasks && j != k :: t.tasks[j].phase.Allocated? <==> s.tasks[j].phase.Allocated?
    ensures SentInv(t)
  {
    hide SentInv;
    SentAppend(s, t, OnWire(s.tasks[k].message, k));
  }

  lemma TasksOnly(s: World, t: World)
    requires TaskInv(s) && t.tasks == s.tasks && t.slots == s.slots && t.issued >= s.issued
    ensures TaskInv(t)
  {
  }

  lemma RelHeard(s: World)
    requires Inv(s)
    ensures s.heard <= |Server(s).outbox|
    ensures s.relPending.Some? ==> Pubrec(s.relPending.value) in Server(s).outbox
  {
    hide Server, SentInv, TaskInv;
  }

  lemma InstallKeeps(s: World, k: nat)
    requires Inv(s) && Enabled(s, InstallComp(k))
    ensures Inv(Apply(s, InstallComp(k)))
  {
    hide Server, SentInv, TaskInv, HeardInv, Installed;
    TaskBounds(s, k);
    var t := Apply(s, InstallComp(k));
    InstalledTasks(s, k, PubcompKind, s.tasks[k].place);
    InstalledFrame(s, k, PubcompKind, s.tasks[k].place);
    ServedPrefix(s, t);
    RelHeard(s);
    HeardKeeps(s, t);
    SentKeeps(s, t);
  }

  lemma HearKeeps(s: World)
    requires Inv(s) && Enabled(s, Hear)
    ensures Inv(Apply(s, Hear))
  {
    hide Server, SentInv, TaskInv, HeardInv, Fired;
    var u := s.(heard := s.heard + 1);
    var p := Server(s).outbox[s.heard];
    assert p in Server(s).outbox;
    var t := Heard(u, p);
    TasksOnly(s, u);
    HeardFrame(u, p);
    ServedPrefix(s, t);
    RelHeard(s);
    HeardKeeps(s, t);
    SentKeeps(s, t);
  }

  /** Taking a packet off the link changes the waiter of its slot, and the pending PUBREL. */
  lemma HeardFrame(s: World, p: Packet)
    requires TaskInv(s)
    ensures var t := Heard(s, p);
            && TaskInv(t) && OnlyTasks(s, t.(relPending := s.relPending))
            && t.relPending == (if p.Pubrec? then Some(p.id) else s.relPending)
            && (forall k | k in s.tasks ::
                  && (t.tasks[k].phase.Allocated? <==> s.tasks[k].phase.Allocated?)
                  && (t.tasks[k].phase.Completed? ==>
                        s.tasks[k].phase.Completed? || (k < 0x1_0000 && p == LastAnswer(s.tasks[k], k))))
  {
    hide TaskInv, Fired;
    match p {
      case Puback(id) =>
        FiredTasks(s, id, Some(PubackKind));
        FiredFrame(s, id, Some(PubackKind));
      case Pubrec(id) =>
        FiredTasks(s, id, Some(PubrecKind));
        FiredFrame(s, id, Some(PubrecKind));
        TasksOnly(Fired(s, id, Some(PubrecKind)), Heard(s, p));
      case Pubcomp(id) =>
        FiredTasks(s, id, Some(PubcompKind));
        FiredFrame(s, id, Some(PubcompKind));
      case _ =>
    }
  }

  lemma SendRelKeeps(s: World)
    requires Inv(s) && Enabled(s, SendRel)
    ensures Inv(Apply(s, SendRel))
  {
    hide Receiver.Openings, Receiver.Postings, OpensFirst, SentInv;
    var t := Apply(s, SendRel);
    var id := s.relPending.value;
    AnswersMean(s.sent[..s.served], id);
    var i :| 0 <= i < s.served && Receiver.Opens(s.sent[..s.served][i], id);
    assert Receiver.Opens(s.sent[i], id);
    ServedPrefix(s, t);
    SentAppend(s, t, Pubrel(id));
  }

  /** Every step keeps the invariant while no identifier comes round again. */
  lemma StepKeeps(s: World, a: Action)
    requires Inv(s) && Enabled(s, a) && Apply(s, a).issued <= 65535
    ensures Inv(Apply(s, a))
  {
    hide Inv;
    match a {
      case Launch(k) => LaunchKeeps(s, k);
      case InstallComp(k) => InstallKeeps(s, k);
      case Hear => HearKeeps(s);
      case SendRel => SendRelKeeps(s);
      case Serve => ServeKeeps(s);
      case _ => OtherKeeps(s, a);
    }
  }

  lemma ServeKeeps(s: World)
    requires Inv(s) && Enabled(s, Serve)
    ensures Inv(Apply(s, Serve))
  {
    hide Receiver.Openings, Receiver.Postings, OpensFirst, Server, SentInv, Fired;
    SentKeeps(s, Apply(s, Serve));
    ServeExtends(s);
  }

  lemma OtherKeeps(s: World, a: Action)
    requires Inv(s) && Enabled(s, a) && Apply(s, a).issued <= 65535
    requires a.Allocate? || a.TimeOut? || a.DropSlot? || a.AllocateOther? || a.SendOther?
    ensures Inv(Apply(s, a))
  {
    hide Server, SentInv, TaskInv, HeardInv, Fired;
    var t := Apply(s, a);
    OtherTasks(s, a);
    ServedPrefix(s, t);
    RelHeard(s);
    HeardKeeps(s, t);
    if a.SendOther? {
      SentAppend(s, t, a.packet);
    } else {
      SentKeeps(s, t);
    }
  }

  lemma OtherTasks(s: World, a: Action)
    requires TaskInv(s) && Enabled(s, a)
    requires a.Allocate? || a.TimeOut? || a.DropSlot? || a.AllocateOther? || a.SendOther?
    ensures var t := Apply(s, a);
            && TaskInv(t)
            && (forall k | k in s.tasks ::
                  && k in t.tasks && t.tasks[k].message == s.tasks[k].message
                  && (t.tasks[k].phase.Allocated? <==> s.tasks[k].phase.Allocated?)
                  && (t.tasks[k].phase.Completed? ==> s.tasks[k].phase.Completed?))
            && (forall k | k in t.tasks && k !in s.tasks :: t.tasks[k].phase.Allocated?)
            && t.served == s.served && t.heard == s.heard && t.relPending == s.relPending
            && t.sent == if a.SendOther? then s.sent + [a.packet] else s.sent
  {
    hide Server, Fired, TaskInv, PhaseFits;
    if a.Allocate? {
      AllocateTasks(s, a.message);
    } else if a.TimeOut? {
      TimeOutTasks(s, a.k);
    } else if a.DropSlot? {
      FiredTasks(s, a.id, None);
      FiredFrame(s, a.id, None);
    } else {
      TasksOnly(s, Apply(s, a));
    }
  }

  lemma AllocateTasks(s: World, m: PublishPacket)
    requires TaskInv(s) && !m.qos.AtMostOnce? && !m.dup
    ensures s.issued + 1 !in s.tasks
    ensures TaskInv(s.(issued := s.issued + 1, tasks := s.tasks[s.issued + 1 := Task(m, Allocated, 0)]))
  {
  }

  lemma TimeOutTasks(s: World, k: nat)
    requires TaskInv(s) && k in s.tasks && Waits(s.tasks[k].phase)
    ensures TaskInv(s.(tasks := s.tasks[k := s.tasks[k].(phase := Failed)]))
  {
  }

  lemma {:induction false} IssuedGrows(s: World, h: seq<Action>)
    requires Legal(s, h)
    ensures After(s, h).issued >= s.issued
    decreases |h|
  {
    if h != [] {
      IssuedGrows(Apply(s, h[0]), h[1..]);
    }
  }

  lemma {:induction false} RunKeeps(s: World, h: seq<Action>)
    requires Inv(s) && Legal(s, h) && After(s, h).issued <= 65535
    ensures Inv(After(s, h))
    decreases |h|
  {
    hide Inv, Apply, Enabled;
    if h != [] {
      IssuedGrows(Apply(s, h[0]), h[1..]);
      StepKeeps(s, h[0]);
      RunKeeps(Apply(s, h[0]), h[1..]);
    }
  }

  lemma StartInv()
    ensures Inv(START)
  {
  }

  /**
    QoS 2 end to end. In every run of tasks, reader, server, timeouts and dropped
    slots that allocates at most 65535 identifiers: each message is handed to the
    server's chain at most once; what is handed on under its identifier is that
    message; if `send_publish` completes, it was handed on exactly once; and a
    message the server has taken is either handed on or still stored.
   */
  lemma ExactlyOnce(h: seq<Action>, k: nat)
    requires Legal(START, h) && After(START, h).issued <= 65535
    requires k in After(START, h).tasks && After(START, h).tasks[k].message.qos.ExactlyOnce?
    ensures var s := After(START, h);
            && Inv(s) && IdOf(k) == k
            && Receiver.Deliveries(Server(s).handed, QoS.ExactlyOnce, k) <= 1
            && (s.tasks[k].phase.Completed? ==> Receiver.Deliveries(Server(s).handed, QoS.ExactlyOnce, k) == 1)
            && Receiver.Openings(s.sent[..s.served], k)
               == Receiver.Deliveries(Server(s).handed, QoS.ExactlyOnce, k) + (if k in Server(s).stored then 1 else 0)
            && (forall m | m in Server(s).handed && m.qos.ExactlyOnce? && m.packetId == Some(k) ::
                  Receiver.SameMessage(m, s.tasks[k].message, k))
  {
    hide Receiver.Openings, Receiver.Run, Receiver.Deliveries, Legal, After, Inv, OpensFirst, Receiver.Released;
    StartInv();
    RunKeeps(START, h);
    var s := After(START, h);
    TaskBounds(s, k);
    var served := s.sent[..s.served];
    ServedSound(s, k);
    Receiver.PublishesConserved(served, k);
    NoOverwrite(served, k);
    if s.tasks[k].phase.Completed? {
      AnswersMean(served, k);
      ReleasedOnce(served, k);
    }
    forall m | m in Server(s).handed && m.qos.ExactlyOnce? && m.packetId == Some(k)
      ensures Receiver.SameMessage(m, s.tasks[k].message, k)
    {
      HandedIsOwn(s, k, m);
    }
  }

  /**
    QoS 1 end to end, in the same runs: each message is handed on at most once,
    with its own content, and exactly once if `send_publish` returns.
   */
  lemma AcknowledgedOnce(h: seq<Action>, k: nat)
    requires Legal(START, h) && After(START, h).issued <= 65535
    requires k in After(START, h).tasks && After(START, h).tasks[k].message.qos.AtLeastOnce?
    ensures var s := After(START, h);
            && Inv(s) && IdOf(k) == k
            && Receiver.Deliveries(Server(s).handed, AtLeastOnce, k) <= 1
            && (s.tasks[k].phase.Completed? ==> Receiver.Deliveries(Server(s).handed, AtLeastOnce, k) == 1)
            && (forall m | m in Server(s).handed && m.qos.AtLeastOnce? && m.packetId == Some(k) ::
                  Receiver.SameMessage(m, s.tasks[k].message, k))
  {
    hide Receiver.Postings, Receiver.Run, Receiver.Deliveries, Legal, After, Inv, OnWire;
    StartInv();
    RunKeeps(START, h);
    var s := After(START, h);
    TaskBounds(s, k);
    var served := s.sent[..s.served];
    ServedSound(s, k);
    Receiver.PostsHanded(served, k);
    AnswersMean(served, k);
    forall m | m in Server(s).handed && m.qos.AtLeastOnce? && m.packetId == Some(k)
      ensures Receiver.SameMessage(m, s.tasks[k].message, k)
    {
      PostedIsOwn(s, k, m);
    }
  }

  lemma TaskBounds(s: World, k: nat)
    requires Inv(s) && k in s.tasks
    ensures 1 <= k <= 65535 && IdOf(k) == k && s.served <= |s.sent|
    ensures s.tasks[k].phase.Completed? ==> LastAnswer(s.tasks[k], k) in Server(s).outbox
    ensures PhaseFits(s.tasks[k])
  {
    hide SentInv, Server;
  }

  lemma HandedIsOwn(s: World, k: nat, m: PublishPacket)
    requires Inv(s) && k in s.tasks && k <= 65535
    requires m in Server(s).handed && m.qos.ExactlyOnce? && m.packetId == Some(k)
    ensures m == Receiver.Released(s.tasks[k].message, k) && Receiver.SameMessage(m, s.tasks[k].message, k)
  {
    hide Receiver.Openings, Receiver.Postings, Receiver.Run, OpensFirst, TaskInv, HeardInv;
    var served := s.sent[..s.served];
    HandedContent(served, k, m);
    var i :| 0 <= i < |served| && Receiver.Opens(served[i], k) && m == Receiver.Released(served[i].publish, k);
    assert served[i] == s.sent[i] && Carries(s.sent[i], k);
  }

  lemma PostedIsOwn(s: World, k: nat, m: PublishPacket)
    requires Inv(s) && k in s.tasks && k <= 65535
    requires m in Server(s).handed && m.qos.AtLeastOnce? && m.packetId == Some(k)
    ensures Publish(m) == OnWire(s.tasks[k].message, k) && Receiver.SameMessage(m, s.tasks[k].message, k)
  {
    hide Receiver.Openings, Receiver.Postings, Receiver.Run, OpensFirst, HeardInv;
    var served := s.sent[..s.served];
    PostedContent(served, k, m);
    var i :| 0 <= i < |served| && Receiver.Posts(served[i], k) && m == served[i].publish;
    assert served[i] == s.sent[i] && Carries(s.sent[i], k);
  }

  lemma {:induction false} CountsPrefix(h: seq<Packet>, n: nat, id: U16)
    requires n <= |h|
    ensures Receiver.Openings(h[..n], id) <= Receiver.Openings(h, id)
    ensures Receiver.Postings(h[..n], id) <= Receiver.Postings(h, id)
    ensures Receiver.Releases(h[..n], id) <= Receiver.Releases(h, id)
  {
    if n < |h| {
      CountsPrefix(h[..|h| - 1], n, id);
      assert h[..|h| - 1][..n] == h[..n];
    } else {
      assert h[..n] == h;
    }
  }

  /** What the invariant says of the packets the server has handled. */
  lemma ServedSound(s: World, id: U16)
    requires Inv(s)
    ensures var served := s.sent[..s.served];
            && Receiver.Openings(served, id) <= (if LaunchedAt(s, QoS.ExactlyOnce, id) then 1 else 0)
            && Receiver.Postings(served, id) <= (if LaunchedAt(s, AtLeastOnce, id) then 1 else 0)
            && OpensFirst(served, id)
  {
    hide TaskInv, HeardInv, Server, OnWire, Receiver.Openings, Receiver.Postings;
    var served := s.sent[..s.served];
    CountsPrefix(s.sent, s.served, id);
    assert OpensFirst(s.sent, id);
    forall j | 0 <= j < |served| && served[j] == Pubrel(id)
      ensures exists i | 0 <= i < j :: Receiver.Opens(served[i], id)
    {
      assert s.sent[j] == Pubrel(id);
      var i :| 0 <= i < j && Receiver.Opens(s.sent[i], id);
      assert served[i] == s.sent[i];
    }
  }

  // ---------- the slots are the acknowledgement table ----------

  /** How the wait of a launched task on its latest slot stands. */
  function OutcomeOf(phase: Phase): Outcome {
    match phase
    case GotRec => Acknowledged
    case Completed => Acknowledged
    case Failed => Closed
    case _ => Waiting
  }

  /** The acknowledgement table that the world holds. */
  function Table(s: World): AckSlots.State {
    AckSlots.State(s.slots, map k | k in s.tasks && !s.tasks[k].phase.Allocated? :: OutcomeOf(s.tasks[k].phase))
  }

  /** Firing a slot is a step of the acknowledgement table, and so is dropping one. */
  lemma FiredIsAck(s: World, id: U16, kind: AckKind)
    requires TaskInv(s)
    ensures Table(Fired(s, id, Some(kind))) == AckSlots.Step(Table(s), AckSlots.Ack(id, kind))
  {
    hide PhaseFits;
    var t, next := Table(Fired(s, id, Some(kind))), AckSlots.Step(Table(s), AckSlots.Ack(id, kind));
    assert t.outcomes.Keys == next.outcomes.Keys;
  }

  lemma FiredIsDrop(s: World, id: U16)
    requires TaskInv(s)
    ensures Table(Fired(s, id, None)) == AckSlots.Dropped(Table(s), id)
  {
    hide PhaseFits;
    assert Table(Fired(s, id, None)).outcomes.Keys == AckSlots.Dropped(Table(s), id).outcomes.Keys;
  }

  /** Installing a slot registers the task as its waiter. */
  lemma InstalledIsRegister(s: World, k: nat, kind: AckKind, place: nat)
    requires TaskInv(s) && k in s.tasks && WaitPhase(kind).Some?
    ensures Table(Installed(s, k, kind, place)) == AckSlots.Step(Table(s), AckSlots.Register(IdOf(k), kind, k))
  {
    hide Fired, TaskInv, IdOf, AckSlots.Dropped, Table, WaitPhase;
    var id, freed := IdOf(k), Fired(s, IdOf(k), None);
    FiredIsDrop(s, id);
    FiredKeys(s, id);
    TableInstalled(freed, k, freed.slots[id := Slot(kind, k)], s.tasks[k].(phase := WaitPhase(kind).value, place := place));
    WaitPhaseWaits(kind);
  }

  lemma FiredKeys(s: World, id: U16)
    requires TaskInv(s)
    ensures Fired(s, id, None).tasks.Keys == s.tasks.Keys
  {
    hide Fired, TaskInv;
    FiredFrame(s, id, None);
  }

  lemma WaitPhaseWaits(kind: AckKind)
    ensures WaitPhase(kind).Some? ==> Waits(WaitPhase(kind).value)
  {
  }

  lemma TableInstalled(s: World, k: nat, slots: map<U16, Slot>, task: Task)
    requires k in s.tasks
    ensures Table(s).slots == s.slots
    ensures Waits(task.phase) ==>
              Table(s.(slots := slots, tasks := s.tasks[k := task])) == AckSlots.State(slots, Table(s).outcomes[k := Waiting])
  {
  }
}
