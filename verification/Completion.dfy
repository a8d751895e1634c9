/** When a handshake completes: what each task hears, and when, over any run. */
module Completion {
  import opened Wire
  import opened Packets
  import opened PacketIds
  import AckSlots
  import opened Handshake
  import Receiver

  // ---------- counting answers ----------

  function Times(out: seq<Packet>, p: Packet): nat {
    multiset(out)[p]
  }

  lemma TimesAppend(out: seq<Packet>, q: Packet, p: Packet)
    ensures Times(out + [q], p) == Times(out, p) + if q == p then 1 else 0
  {
  }

  lemma TimesIn(out: seq<Packet>, p: Packet)
    ensures Times(out, p) >= 1 <==> p in out
  {
  }

  lemma TimesPrefix(a: seq<Packet>, b: seq<Packet>, p: Packet)
    requires a <= b
    ensures Times(a, p) <= Times(b, p)
  {
    assert b == a + b[|a|..];
  }

  /** The server sends one PUBACK, PUBREC and PUBCOMP per QoS 1 PUBLISH, QoS 2 PUBLISH and PUBREL. */
  lemma {:induction false} AnswersCounted(h: seq<Packet>, id: U16)
    ensures Times(Receiver.Run(h).outbox, Puback(id)) == Receiver.Postings(h, id)
    ensures Times(Receiver.Run(h).outbox, Pubrec(id)) == Receiver.Openings(h, id)
    ensures Times(Receiver.Run(h).outbox, Pubcomp(id)) == Receiver.Releases(h, id)
  {
    hide Times, Receiver.Step;
    if h == [] {
      TimesIn([], Puback(id));
      TimesIn([], Pubrec(id));
      TimesIn([], Pubcomp(id));
    } else {
      var s, p := Receiver.Run(h[..|h| - 1]), h[|h| - 1];
      AnswersCounted(h[..|h| - 1], id);
      Receiver.StepReplies(s, p);
      if Receiver.Reply(p) == [] {
        assert s.outbox + [] == s.outbox;
      } else {
        TimesAppend(s.outbox, Receiver.Reply(p)[0], Puback(id));
        TimesAppend(s.outbox, Receiver.Reply(p)[0], Pubrec(id));
        TimesAppend(s.outbox, Receiver.Reply(p)[0], Pubcomp(id));
      }
    }
  }

  /** What the reader has taken off the link. */
  function HeardBy(s: World): seq<Packet>
    requires s.served <= |s.sent| && s.heard <= |Server(s).outbox|
  {
    Server(s).outbox[..s.heard]
  }

  // ---------- the invariant of every run ----------

  ghost predicate Sane(s: World) {
    s.served <= |s.sent| && s.heard <= |Server(s).outbox|
  }

  /** Each PUBREC heard has its PUBREL, sent or pending. */
  ghost predicate RelInv(s: World)
    requires Sane(s)
  {
    forall id: U16 ::
      Receiver.Releases(s.sent, id) + (if s.relPending == Some(id) then 1 else 0) == Times(HeardBy(s), Pubrec(id))
  }

  /** A task past its first wait has heard PUBREC. */
  ghost predicate RecInv(s: World)
    requires Sane(s)
  {
    forall k | k in s.tasks && (s.tasks[k].phase.GotRec? || s.tasks[k].phase.AwaitComp?) :: Pubrec(IdOf(k)) in HeardBy(s)
  }

  lemma ReleasesAppend(h: seq<Packet>, p: Packet, id: U16)
    ensures Receiver.Releases(h + [p], id) == Receiver.Releases(h, id) + if p == Pubrel(id) then 1 else 0
  {
    assert (h + [p])[..|h|] == h;
  }

  /** What was heard before a step is a prefix of what is heard after it. */
  lemma HeardGrows(s: World, a: Action)
    requires Sane(s) && Enabled(s, a)
    ensures Sane(Apply(s, a))
    ensures HeardBy(Apply(s, a)) == HeardBy(s) + if a.Hear? then [Server(s).outbox[s.heard]] else []
  {
    hide Server, Fired, Installed;
    var t := Apply(s, a);
    StepFrame(s, a);
    if a.Serve? {
      ServeExtends(s);
    } else {
      ServedPrefix(s, t);
    }
    assert HeardBy(s) + [] == HeardBy(s);
  }

  /** What a step does to the links. */
  lemma StepFrame(s: World, a: Action)
    requires Enabled(s, a)
    ensures var t := Apply(s, a);
            && t.served == (if a.Serve? then s.served + 1 else s.served)
            && t.heard == (if a.Hear? then s.heard + 1 else s.heard)
            && s.sent <= t.sent && t.served <= |t.sent|
            && t.sent == (match a
                          case Launch(k) => s.sent + [OnWire(s.tasks[k].message, k)]
                          case SendOther(p) => s.sent + [p]
                          case SendRel => s.sent + [Pubrel(s.relPending.value)]
                          case _ => s.sent)
            && t.relPending == (if a.SendRel? then None
                                else if a.Hear? && Server(s).outbox[s.heard].Pubrec? then Some(Server(s).outbox[s.heard].id)
                                else s.relPending)
  {
    hide Server, OnWire, IdOf;
  }

  lemma RelKeeps(s: World, a: Action)
    requires Sane(s) && Enabled(s, a) && RelInv(s)
    ensures Sane(Apply(s, a)) && RelInv(Apply(s, a))
  {
    hide Server, Apply, Times, HeardBy, Receiver.Releases;
    var t := Apply(s, a);
    HeardGrows(s, a);
    StepFrame(s, a);
    forall id: U16
      ensures Receiver.Releases(t.sent, id) + (if t.relPending == Some(id) then 1 else 0) == Times(HeardBy(t), Pubrec(id))
    {
      if a.Hear? {
        TimesAppend(HeardBy(s), Server(s).outbox[s.heard], Pubrec(id));
      } else {
        assert HeardBy(t) == HeardBy(s);
      }
      if |t.sent| > |s.sent| {
        ReleasesAppend(s.sent, t.sent[|s.sent|], id);
      }
    }
  }

  /** In any run, for any number of identifiers, each PUBREC heard has exactly one PUBREL, sent or pending. */
  lemma {:induction false} RelRun(s: World, h: seq<Action>)
    requires Sane(s) && RelInv(s) && Legal(s, h)
    ensures Sane(After(s, h)) && RelInv(After(s, h))
    decreases |h|
  {
    hide Apply, Enabled, Sane, RelInv;
    if h != [] {
      RelKeeps(s, h[0]);
      RelRun(Apply(s, h[0]), h[1..]);
    }
  }

  // ---------- what one step does to one task ----------

  predicate AnswerTo(p: Packet, k: nat) {
    (p.Puback? || p.Pubrec? || p.Pubcomp?) && p.id == k
  }

  function KindOf(p: Packet): AckSlots.AckKind {
    if p.Puback? then AckSlots.PubackKind else if p.Pubrec? then AckSlots.PubrecKind else AckSlots.PubcompKind
  }

  /** The action is the task's own, or takes its slot away, or brings it an answer. */
  predicate Concerns(s: World, a: Action, k: nat)
    requires Sane(s)
  {
    || a == Launch(k) || a == InstallComp(k) || a == TimeOut(k) || (k < 0x1_0000 && a == DropSlot(k))
    || (a.Hear? && s.heard < |Server(s).outbox| && AnswerTo(Server(s).outbox[s.heard], k))
  }

  predicate SameTask(s: World, t: World, k: nat) {
    && k in s.tasks && k in t.tasks && t.tasks[k] == s.tasks[k]
    && (k in t.slots <==> k in s.slots) && (k in s.slots ==> t.slots[k] == s.slots[k])
  }

  lemma FiredOther(s: World, id: U16, kind: Option<AckSlots.AckKind>, k: nat)
    requires TaskInv(s) && k in s.tasks && k != id
    ensures SameTask(s, Fired(s, id, kind), k)
  {
  }

  lemma FiredOwn(s: World, kind: Option<AckSlots.AckKind>, k: U16)
    requires TaskInv(s) && k in s.tasks
    ensures var t := Fired(s, k, kind);
            && k !in t.slots && k in t.tasks
            && t.tasks[k] == if k in s.slots then Woken(s.tasks[k], s.slots[k].kind, kind == Some(s.slots[k].kind)) else s.tasks[k]
  {
  }

  lemma Untouched(s: World, a: Action, k: nat)
    requires Inv(s) && Sane(s) && Enabled(s, a) && k in s.tasks && !Concerns(s, a, k)
    ensures SameTask(s, Apply(s, a), k)
  {
    hide Server, SentInv, HeardInv, Fired, PhaseFits, Woken;
    TaskBounds(s, k);
    match a {
      case Launch(j) =>
        TaskBounds(s, j);
        FiredOther(s, j, None, k);
      case InstallComp(j) =>
        TaskBounds(s, j);
        FiredOther(s, j, None, k);
      case DropSlot(id) => FiredOther(s, id, None, k);
      case Hear => UntouchedHear(s, k);
      case _ =>
    }
  }

  lemma UntouchedHear(s: World, k: nat)
    requires Inv(s) && Sane(s) && Enabled(s, Hear) && k in s.tasks && !Concerns(s, Hear, k)
    ensures SameTask(s, Apply(s, Hear), k)
  {
    hide Server, SentInv, HeardInv, Fired, PhaseFits, Woken;
    var u, p := s.(heard := s.heard + 1), Server(s).outbox[s.heard];
    TasksOnly(s, u);
    match p {
      case Puback(id) => FiredOther(u, id, Some(AckSlots.PubackKind), k);
      case Pubrec(id) => FiredOther(u, id, Some(AckSlots.PubrecKind), k);
      case Pubcomp(id) => FiredOther(u, id, Some(AckSlots.PubcompKind), k);
      case _ =>
    }
  }

  lemma HearsOwn(s: World, k: nat)
    requires Inv(s) && Sane(s) && Enabled(s, Hear) && k in s.tasks && AnswerTo(Server(s).outbox[s.heard], k)
    ensures var t, kind := Apply(s, Hear), KindOf(Server(s).outbox[s.heard]);
            && k in t.tasks && k !in t.slots
            && t.tasks[k] == if k in s.slots then Woken(s.tasks[k], s.slots[k].kind, kind == s.slots[k].kind) else s.tasks[k]
  {
    hide Server, SentInv, HeardInv, Fired, PhaseFits, Woken;
    TaskBounds(s, k);
    var u, p := s.(heard := s.heard + 1), Server(s).outbox[s.heard];
    TasksOnly(s, u);
    FiredOwn(u, Some(KindOf(p)), k);
  }

  /** A task's own actions, and the loss of its slot. */
  lemma ActsOwn(s: World, a: Action, k: nat)
    requires Inv(s) && Enabled(s, a) && k in s.tasks && Concerns(s, a, k) && !a.Hear?
    ensures var t := Apply(s, a);
            && k in t.tasks && t.tasks[k].message == s.tasks[k].message
            && match a
               case Launch(_) =>
                 var kind := FirstKind(s.tasks[k].message);
                 s.tasks[k].phase.Allocated? && t.tasks[k].phase == WaitPhase(kind).value
                 && k in t.slots && t.slots[k] == AckSlots.Slot(kind, k)
               case InstallComp(_) =>
                 s.tasks[k].phase.GotRec? && t.tasks[k].phase.AwaitComp?
                 && k in t.slots && t.slots[k] == AckSlots.Slot(AckSlots.PubcompKind, k)
               case TimeOut(_) => Waits(s.tasks[k].phase) && t.tasks[k].phase.Failed?
               case _ => t.tasks[k].phase == s.tasks[k].phase || (Waits(s.tasks[k].phase) && t.tasks[k].phase.Failed?)
  {
    hide Server, SentInv, HeardInv, Fired, PhaseFits;
    TaskBounds(s, k);
    if a.Launch? || a.InstallComp? {
      FiredOwn(s, None, k);
    }
    if a.DropSlot? {
      FiredOwn(s, None, k);
    }
  }

  lemma RecKeeps(s: World, a: Action)
    requires Inv(s) && Sane(s) && Enabled(s, a) && RecInv(s) && Apply(s, a).issued <= 65535
    ensures Sane(Apply(s, a)) && RecInv(Apply(s, a))
  {
    hide Server, Apply, HeardBy, Inv, Enabled;
    var t := Apply(s, a);
    HeardGrows(s, a);
    StepKeeps(s, a);
    forall k | k in t.tasks && (t.tasks[k].phase.GotRec? || t.tasks[k].phase.AwaitComp?)
      ensures Pubrec(IdOf(k)) in HeardBy(t)
    {
      TaskBounds(t, k);
      if k !in s.tasks {
        NewTask(s, a, k);
      } else if !Concerns(s, a, k) {
        Untouched(s, a, k);
      } else if a.Hear? {
        HearsOwn(s, k);
      } else {
        ActsOwn(s, a, k);
      }
    }
  }

  lemma NewTask(s: World, a: Action, k: nat)
    requires Inv(s) && Enabled(s, a) && k in Apply(s, a).tasks && k !in s.tasks
    ensures Apply(s, a).tasks[k].phase.Allocated?
  {
    hide Server, SentInv, HeardInv, PhaseFits;
  }

  ghost predicate Good(s: World) {
    Inv(s) && Sane(s) && RelInv(s) && RecInv(s)
  }

  lemma GoodKeeps(s: World, a: Action)
    requires Good(s) && Enabled(s, a) && Apply(s, a).issued <= 65535
    ensures Good(Apply(s, a))
  {
    hide Inv, Sane, RelInv, RecInv, Apply, Enabled;
    StepKeeps(s, a);
    RelKeeps(s, a);
    RecKeeps(s, a);
  }

  lemma StartGood()
    ensures Good(START)
  {
    hide Times;
    StartInv();
    assert START.sent[..0] == [];
    forall id: U16
      ensures Receiver.Releases(START.sent, id) == Times(HeardBy(START), Pubrec(id)) == 0
    {
      TimesIn(HeardBy(START), Pubrec(id));
    }
  }

  lemma {:induction false} GoodRun(s: World, h: seq<Action>)
    requires Good(s) && Legal(s, h) && After(s, h).issued <= 65535
    ensures Good(After(s, h))
    decreases |h|
  {
    hide Good, Apply, Enabled;
    if h != [] {
      IssuedGrows(Apply(s, h[0]), h[1..]);
      GoodKeeps(s, h[0]);
      GoodRun(Apply(s, h[0]), h[1..]);
    }
  }

  /** No answer is sent twice, and none of the other QoS. */
  lemma AnsweredOnce(s: World, k: nat)
    requires Good(s) && k in s.tasks
    ensures k <= 65535
    ensures var out := Server(s).outbox;
            && Times(out, Puback(k)) <= (if LaunchedAt(s, AtLeastOnce, k) then 1 else 0)
            && Times(out, Pubrec(k)) <= (if LaunchedAt(s, QoS.ExactlyOnce, k) then 1 else 0)
            && Times(out, Pubcomp(k)) <= (if LaunchedAt(s, QoS.ExactlyOnce, k) then 1 else 0)
            && Times(out, Pubcomp(k)) <= Times(HeardBy(s), Pubrec(k))
  {
    hide Inv, Times, RecInv, OpensFirst;
    TaskBounds(s, k);
    var served := s.sent[..s.served];
    AnswersCounted(served, k);
    ServedSound(s, k);
    CountsPrefix(s.sent, s.served, k);
    TimesPrefix(HeardBy(s), Server(s).outbox, Pubrec(k));
    assert Receiver.Releases(s.sent, k) <= Times(HeardBy(s), Pubrec(k));
  }

  /** What was heard and is sent only once does not come next. */
  lemma NotNext(s: World, p: Packet)
    requires Sane(s) && s.heard < |Server(s).outbox| && Times(Server(s).outbox, p) <= Times(HeardBy(s), p)
    ensures Server(s).outbox[s.heard] != p
  {
    hide Server, Times;
    var out := Server(s).outbox;
    TimesAppend(HeardBy(s), out[s.heard], p);
    assert out[..s.heard + 1] == HeardBy(s) + [out[s.heard]];
    TimesPrefix(out[..s.heard + 1], out, p);
  }

  /** The task waits on its last slot and has not heard the answer, or has heard it and completed. */
  ghost predicate Pending(s: World, k: nat)
    requires Sane(s)
  {
    && k in s.tasks && k <= 65535 && Launched(s, k)
    && (s.tasks[k].message.qos.ExactlyOnce? ==> Pubrec(k) in HeardBy(s))
    && var kind := LastKind(s.tasks[k]);
       if LastAnswer(s.tasks[k], k) in HeardBy(s) then s.tasks[k].phase.Completed?
       else Some(s.tasks[k].phase) == WaitPhase(kind) && k in s.slots && s.slots[k] == AckSlots.Slot(kind, k)
  }

  /** Neither its timer nor a drop of its slot disturbs the task. */
  predicate Patient(a: Action, k: nat) {
    a != TimeOut(k) && !(a.DropSlot? && a.id == k)
  }

  lemma PendingStep(s: World, a: Action, k: nat)
    requires Good(s) && Enabled(s, a) && Apply(s, a).issued <= 65535
    requires Pending(s, k) && Patient(a, k)
    ensures Sane(Apply(s, a)) && Pending(Apply(s, a), k)
  {
    hide Apply, HeardBy, Inv, Enabled, Server, RelInv, RecInv;
    var t := Apply(s, a);
    HeardGrows(s, a);
    TaskBounds(s, k);
    if !Concerns(s, a, k) {
      Untouched(s, a, k);
      NoAnswer(s, a, k);
    } else if a.Hear? {
      PendingHear(s, k);
    } else {
      ActsOwn(s, a, k);
    }
  }

  lemma NoAnswer(s: World, a: Action, k: nat)
    requires Sane(s) && Enabled(s, a) && k in s.tasks && k <= 65535 && !Concerns(s, a, k)
    ensures a.Hear? ==> Server(s).outbox[s.heard] != Pubrec(k) && Server(s).outbox[s.heard] != LastAnswer(s.tasks[k], k)
  {
    hide Server;
  }

  lemma PendingHear(s: World, k: nat)
    requires Good(s) && Enabled(s, Hear) && Pending(s, k) && AnswerTo(Server(s).outbox[s.heard], k)
    ensures Sane(Apply(s, Hear)) && Pending(Apply(s, Hear), k)
  {
    hide Apply, HeardBy, Inv, Server, RelInv, RecInv, Times;
    var p := Server(s).outbox[s.heard];
    HeardGrows(s, Hear);
    TaskBounds(s, k);
    HearsOwn(s, k);
    AnsweredOnce(s, k);
    TimesIn(HeardBy(s), Pubrec(k));
    TimesIn(HeardBy(s), LastAnswer(s.tasks[k], k));
    if p != LastAnswer(s.tasks[k], k) || p in HeardBy(s) {
      NotNext(s, p);
    }
  }

  /** The answer has gone by and the task has not completed. */
  ghost predicate Missed(s: World, k: nat)
    requires Sane(s)
  {
    && k in s.tasks && k <= 65535 && s.tasks[k].message.qos.ExactlyOnce?
    && (s.tasks[k].phase.AwaitComp? || s.tasks[k].phase.Failed?)
    && Pubcomp(k) in HeardBy(s)
  }

  lemma MissedStep(s: World, a: Action, k: nat)
    requires Good(s) && Enabled(s, a) && Apply(s, a).issued <= 65535 && Missed(s, k)
    ensures Sane(Apply(s, a)) && Missed(Apply(s, a), k)
  {
    hide Apply, HeardBy, Inv, Enabled, Server, RelInv, RecInv, Times;
    HeardGrows(s, a);
    TaskBounds(s, k);
    if !Concerns(s, a, k) {
      Untouched(s, a, k);
    } else if a.Hear? {
      HeardNow(s, a);
      HearsOwn(s, k);
      AnsweredOnce(s, k);
      TimesIn(HeardBy(s), Pubcomp(k));
      NotNext(s, Pubcomp(k));
    } else {
      ActsOwn(s, a, k);
    }
  }

  lemma HeardNow(s: World, a: Action)
    requires Sane(s) && Enabled(s, a) && a.Hear?
    ensures Enabled(s, Hear) && s.heard < |Server(s).outbox|
  {
    hide Server;
  }

  lemma {:induction false} RunPending(s: World, g: seq<Action>, k: nat)
    requires Good(s) && Legal(s, g) && After(s, g).issued <= 65535 && Pending(s, k)
    requires forall a | a in g :: Patient(a, k)
    ensures Good(After(s, g)) && Pending(After(s, g), k)
    decreases |g|
  {
    hide Apply, Enabled, Pending, Inv, Sane, RelInv, RecInv;
    if g != [] {
      IssuedGrows(Apply(s, g[0]), g[1..]);
      GoodKeeps(s, g[0]);
      PendingStep(s, g[0], k);
      RunPending(Apply(s, g[0]), g[1..], k);
    }
  }

  lemma {:induction false} RunMissed(s: World, g: seq<Action>, k: nat)
    requires Good(s) && Legal(s, g) && After(s, g).issued <= 65535 && Missed(s, k)
    ensures Good(After(s, g)) && Missed(After(s, g), k)
    decreases |g|
  {
    hide Apply, Enabled, Missed, Inv, Sane, RelInv, RecInv;
    if g != [] {
      IssuedGrows(Apply(s, g[0]), g[1..]);
      GoodKeeps(s, g[0]);
      MissedStep(s, g[0], k);
      RunMissed(Apply(s, g[0]), g[1..], k);
    }
  }

  /** Both links are empty and the reader owes no PUBREL. */
  ghost predicate Quiescent(s: World) {
    Sane(s) && s.served == |s.sent| && s.heard == |Server(s).outbox| && s.relPending.None?
  }

  /** With the links empty, a task that waits on its last slot has heard the answer. */
  lemma QuiescentCompletes(s: World, k: nat)
    requires Good(s) && Pending(s, k) && Quiescent(s)
    ensures s.tasks[k].phase.Completed?
  {
    hide Inv, Times, RecInv, Receiver.Openings, Receiver.Postings, Receiver.Releases;
    var out := Server(s).outbox;
    assert s.sent[..s.served] == s.sent && HeardBy(s) == out;
    AnswersCounted(s.sent, k);
    LaunchedIsSent(s, k);
    TimesIn(out, Puback(k));
    TimesIn(out, Pubrec(k));
    TimesIn(out, Pubcomp(k));
  }

  lemma LaunchedIsSent(s: World, k: nat)
    requires Inv(s) && k <= 65535 && Launched(s, k)
    ensures s.tasks[k].message.qos.AtLeastOnce? ==> Receiver.Postings(s.sent, k) == 1
    ensures s.tasks[k].message.qos.ExactlyOnce? ==> Receiver.Openings(s.sent, k) == 1
    ensures !s.tasks[k].message.qos.AtMostOnce?
  {
    hide Server, HeardInv, OpensFirst, Receiver.Openings, Receiver.Postings;
    TaskBounds(s, k);
    assert LaunchedAt(s, AtLeastOnce, k) <==> s.tasks[k].message.qos.AtLeastOnce?;
    assert LaunchedAt(s, QoS.ExactlyOnce, k) <==> s.tasks[k].message.qos.ExactlyOnce?;
  }

  /**
    Exactly when a QoS 2 handshake completes. Take any run within the first 65535
    identifiers and the state in which the task installs its PUBCOMP slot. If the
    reader has already taken its PUBCOMP, no continuation completes the task. And
    in every continuation that empties the links, in which neither its timer nor a
    drop of its slot disturbs it, the task has completed if and only if the reader
    had not taken its PUBCOMP when the slot was installed.
   */
  lemma CompletesExactly(h: seq<Action>, k: nat, g: seq<Action>)
    requires Legal(START, h) && Enabled(After(START, h), InstallComp(k))
    requires Legal(Apply(After(START, h), InstallComp(k)), g)
    requires After(Apply(After(START, h), InstallComp(k)), g).issued <= 65535
    ensures var s := After(START, h);
            var u := After(Apply(s, InstallComp(k)), g);
            && Sane(s) && k <= 65535 && k in u.tasks
            && (Pubcomp(k) in HeardBy(s) ==> !u.tasks[k].phase.Completed?)
            && ((forall a | a in g :: Patient(a, k)) && Quiescent(u) ==>
                  (u.tasks[k].phase.Completed? <==> Pubcomp(k) !in HeardBy(s)))
  {
    hide Legal, After, Apply, Enabled, Inv, RelInv, HeardBy, Quiescent;
    var s := After(START, h);
    var t := Apply(s, InstallComp(k));
    IssuedGrows(t, g);
    InstallIssues(s, k);
    StartGood();
    GoodRun(START, h);
    TaskBounds(s, k);
    GoodKeeps(s, InstallComp(k));
    HeardGrows(s, InstallComp(k));
    assert Concerns(s, InstallComp(k), k);
    ActsOwn(s, InstallComp(k), k);
    assert HeardBy(t) == HeardBy(s);
    if Pubcomp(k) in HeardBy(s) {
      RunMissed(t, g, k);
    } else {
      RunFinishes(t, g, k);
      KeepsTask(t, g, k);
    }
  }

  lemma RunFinishes(t: World, g: seq<Action>, k: nat)
    requires Good(t) && Legal(t, g) && After(t, g).issued <= 65535 && Pending(t, k)
    ensures var u := After(t, g);
            (forall a | a in g :: Patient(a, k)) && Quiescent(u) ==> k in u.tasks && u.tasks[k].phase.Completed?
  {
    hide Legal, After, Apply, Good, Inv;
    if (forall a | a in g :: Patient(a, k)) && Quiescent(After(t, g)) {
      RunPending(t, g, k);
      QuiescentCompletes(After(t, g), k);
    }
  }

  lemma InstallIssues(s: World, k: nat)
    requires Enabled(s, InstallComp(k))
    ensures Apply(s, InstallComp(k)).issued == s.issued && k in s.tasks && s.tasks[k].phase.GotRec?
  {
    hide Server;
  }

  lemma {:induction false} KeepsTask(s: World, g: seq<Action>, k: nat)
    requires Legal(s, g) && k in s.tasks
    ensures k in After(s, g).tasks
    decreases |g|
  {
    hide Server;
    if g != [] {
      KeepsTask(Apply(s, g[0]), g[1..], k);
    }
  }

  /**
    A QoS 1 task installs its slot before its PUBLISH is on the link, so it always
    completes: in every continuation that empties the links, in which neither its
    timer nor a drop of its slot disturbs it.
   */
  lemma AcknowledgedWhenQuiescent(h: seq<Action>, k: nat, g: seq<Action>)
    requires Legal(START, h) && Enabled(After(START, h), Launch(k))
    requires After(START, h).tasks[k].message.qos.AtLeastOnce?
    requires Legal(Apply(After(START, h), Launch(k)), g)
    requires After(Apply(After(START, h), Launch(k)), g).issued <= 65535
    requires forall a | a in g :: Patient(a, k)
    requires Quiescent(After(Apply(After(START, h), Launch(k)), g))
    ensures var u := After(Apply(After(START, h), Launch(k)), g); k in u.tasks && u.tasks[k].phase.Completed?
  {
    hide Legal, After, Apply, Inv, RelInv, RecInv, HeardBy, Quiescent;
    var s := After(START, h);
    var t := Apply(s, Launch(k));
    IssuedGrows(t, g);
    LaunchIssues(s, k);
    StartGood();
    GoodRun(START, h);
    TaskBounds(s, k);
    GoodKeeps(s, Launch(k));
    HeardGrows(s, Launch(k));
    assert Concerns(s, Launch(k), k);
    ActsOwn(s, Launch(k), k);
    NotYetAnswered(s, k);
    RunFinishes(t, g, k);
  }

  lemma LaunchIssues(s: World, k: nat)
    requires Enabled(s, Launch(k))
    ensures Apply(s, Launch(k)).issued == s.issued && k in s.tasks && s.tasks[k].phase.Allocated?
  {
    hide Server;
  }

  lemma NotYetAnswered(s: World, k: nat)
    requires Good(s) && k in s.tasks && s.tasks[k].phase.Allocated?
    ensures k <= 65535 && Puback(k) !in HeardBy(s) && Pubrec(k) !in HeardBy(s)
  {
    hide Inv, Times, RelInv, RecInv;
    AnsweredOnce(s, k);
    TimesIn(HeardBy(s), Puback(k));
    TimesPrefix(HeardBy(s), Server(s).outbox, Puback(k));
    TimesIn(HeardBy(s), Pubrec(k));
    TimesPrefix(HeardBy(s), Server(s).outbox, Pubrec(k));
  }

  // ---------- the first wait of a QoS 2 task ----------

  predicate PastFirst(phase: Phase) {
    phase.GotRec? || phase.AwaitComp? || phase.Completed?
  }

  /** The task waits on its PUBREC slot and has not heard PUBREC, or has heard it and gone on. */
  ghost predicate Progress(s: World, k: nat)
    requires Sane(s)
  {
    && k in s.tasks && k <= 65535 && Launched(s, k) && s.tasks[k].message.qos.ExactlyOnce?
    && if Pubrec(k) in HeardBy(s) then PastFirst(s.tasks[k].phase)
       else s.tasks[k].phase.AwaitRec? && k in s.slots && s.slots[k] == AckSlots.Slot(AckSlots.PubrecKind, k)
  }

  lemma ProgressStep(s: World, a: Action, k: nat)
    requires Good(s) && Enabled(s, a) && Apply(s, a).issued <= 65535
    requires Progress(s, k) && Patient(a, k)
    ensures Sane(Apply(s, a)) && Progress(Apply(s, a), k)
  {
    hide Apply, HeardBy, Inv, Enabled, Server, RelInv, RecInv;
    HeardGrows(s, a);
    TaskBounds(s, k);
    if !Concerns(s, a, k) {
      Untouched(s, a, k);
      NoAnswer(s, a, k);
    } else if a.Hear? {
      ProgressHear(s, k);
    } else {
      ActsOwn(s, a, k);
    }
  }

  lemma ProgressHear(s: World, k: nat)
    requires Good(s) && Enabled(s, Hear) && Progress(s, k) && AnswerTo(Server(s).outbox[s.heard], k)
    ensures Sane(Apply(s, Hear)) && Progress(Apply(s, Hear), k)
  {
    hide Apply, HeardBy, Inv, Server, RelInv, RecInv, Times;
    var p := Server(s).outbox[s.heard];
    HeardGrows(s, Hear);
    TaskBounds(s, k);
    HearsOwn(s, k);
    SlotMatches(s, k);
    AnsweredOnce(s, k);
    TimesIn(HeardBy(s), Pubrec(k));
    if p.Puback? || (p.Pubrec? && p in HeardBy(s)) || (p.Pubcomp? && Pubrec(k) !in HeardBy(s)) {
      NotNext(s, p);
    }
  }

  lemma SlotMatches(s: World, k: nat)
    requires Inv(s) && k in s.tasks
    ensures k in s.slots && Waits(s.tasks[k].phase) ==> WaitPhase(s.slots[k].kind) == Some(s.tasks[k].phase)
  {
    hide Server, SentInv, HeardInv, PhaseFits;
  }

  lemma {:induction false} RunProgress(s: World, g: seq<Action>, k: nat)
    requires Good(s) && Legal(s, g) && After(s, g).issued <= 65535 && Progress(s, k)
    requires forall a | a in g :: Patient(a, k)
    ensures Good(After(s, g)) && Progress(After(s, g), k)
    decreases |g|
  {
    hide Apply, Enabled, Progress, Inv, Sane, RelInv, RecInv;
    if g != [] {
      IssuedGrows(Apply(s, g[0]), g[1..]);
      GoodKeeps(s, g[0]);
      ProgressStep(s, g[0], k);
      RunProgress(Apply(s, g[0]), g[1..], k);
    }
  }

  /**
    A QoS 2 task never stalls in its first wait: in every continuation of its
    launch that empties the links, in which neither its timer nor a drop of its
    slot disturbs it, it has gone past it.
   */
  lemma PassesFirstWait(h: seq<Action>, k: nat, g: seq<Action>)
    requires Legal(START, h) && Enabled(After(START, h), Launch(k))
    requires After(START, h).tasks[k].message.qos.ExactlyOnce?
    requires Legal(Apply(After(START, h), Launch(k)), g)
    requires After(Apply(After(START, h), Launch(k)), g).issued <= 65535
    requires forall a | a in g :: Patient(a, k)
    requires Quiescent(After(Apply(After(START, h), Launch(k)), g))
    ensures var u := After(Apply(After(START, h), Launch(k)), g); k in u.tasks && PastFirst(u.tasks[k].phase)
  {
    hide Legal, After, Apply, Inv, RelInv, RecInv, HeardBy, Quiescent, PastFirst;
    var s := After(START, h);
    var t := Apply(s, Launch(k));
    IssuedGrows(t, g);
    LaunchIssues(s, k);
    StartGood();
    GoodRun(START, h);
    TaskBounds(s, k);
    GoodKeeps(s, Launch(k));
    HeardGrows(s, Launch(k));
    assert Concerns(s, Launch(k), k);
    ActsOwn(s, Launch(k), k);
    NotYetAnswered(s, k);
    RunProgress(t, g, k);
    QuiescentPast(After(t, g), k);
  }

  lemma QuiescentPast(s: World, k: nat)
    requires Good(s) && Progress(s, k) && Quiescent(s)
    ensures PastFirst(s.tasks[k].phase)
  {
    hide Inv, Times, RelInv, RecInv, Receiver.Openings, Receiver.Postings, Receiver.Releases;
    var out := Server(s).outbox;
    assert s.sent[..s.served] == s.sent && HeardBy(s) == out;
    AnswersCounted(s.sent, k);
    LaunchedIsSent(s, k);
    TimesIn(out, Pubrec(k));
  }
}
