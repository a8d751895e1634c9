/** Outbound packet identifiers: a wrapping 16-bit counter whose zero is replaced by one. */
module PacketIds {
  import opened Wire

  /** The identifier that the `k`-th allocation returns, counting from 1. */
  function IdOf(k: nat): (id: U16)
    ensures id != 0
  {
    if k % 0x1_0000 == 0 then 1 else k % 0x1_0000
  }

  class Counter {
    var value: U16
    ghost var issued: nat

    ghost predicate Valid()
      reads this
    {
      value == issued % 0x1_0000
    }

    constructor ()
      ensures Valid() && issued == 0
    {
      value, issued := 0, 0;
    }

    method AllocatePacketId() returns (id: U16)
      requires Valid()
      modifies this
      ensures Valid() && issued == old(issued) + 1
      ensures id == IdOf(issued)
    {
      var previous := value;
      value := (value as int + 1) % 0x1_0000;
      id := (previous as int + 1) % 0x1_0000;
      issued := issued + 1;
      if id == 0 {
        id := 1;
      }
    }
  }

  /** The first 65535 identifiers are distinct. */
  lemma FirstIdsDistinct(i: nat, j: nat)
    requires 1 <= i < j <= 65535
    ensures IdOf(i) == i && IdOf(i) != IdOf(j)
  {
  }

  /** Two allocations collide exactly when they agree modulo 65536, or one wraps to 0 and the other to 1. */
  lemma IdsCollide(i: nat, j: nat)
    ensures IdOf(i) == IdOf(j) <==>
              || i % 0x1_0000 == j % 0x1_0000
              || (i % 0x1_0000 <= 1 && j % 0x1_0000 <= 1)
  {
  }

  /** Replacing 0 by 1 repeats an identifier at once: allocations 65536 and 65537 both return 1. */
  lemma ConsecutiveCollision()
    ensures IdOf(65536) == IdOf(65537) == 1
  {
  }
}

/**
  Waiting for acknowledgements. An operation registers a one-shot slot under its
  packet identifier and waits; the slot's sender fires, or is dropped, once.
 */
module AckSlots {
  import opened Wire

  datatype AckKind = PubackKind | PubrecKind | PubcompKind | SubackKind | UnsubackKind

  datatype Slot = Slot(kind: AckKind, waiter: nat)

  /** How a waiting operation ends: acknowledged, told that its sender is gone, or timed out. */
  datatype Outcome = Waiting | Acknowledged | Closed | TimedOut

  datatype State = State(slots: map<U16, Slot>, outcomes: map<nat, Outcome>)

  const INITIAL := State(map[], map[])

  datatype Event =
    | Register(id: U16, kind: AckKind, waiter: nat)
    | Ack(id: U16, kind: AckKind)
    | TimeOut(id: U16, waiter: nat)
    | SendFailed(id: U16, waiter: nat)  // the operation gives up after registering; its slot stays
    | Abandon

  /** A resolved waiter stays as it is. */
  function Resolve(outcomes: map<nat, Outcome>, waiter: nat, outcome: Outcome): map<nat, Outcome> {
    if waiter in outcomes && outcomes[waiter] == Waiting then outcomes[waiter := outcome] else outcomes
  }

  /** Dropping the slot of `id` closes its waiter. */
  function Dropped(s: State, id: U16): State {
    if id !in s.slots then s
    else State(s.slots - {id}, Resolve(s.outcomes, s.slots[id].waiter, Closed))
  }

  function Step(s: State, e: Event): State {
    match e
    case Register(id, kind, w) =>
      var d := Dropped(s, id);
      State(d.slots[id := Slot(kind, w)], d.outcomes[w := Waiting])
    case Ack(id, kind) =>
      if id in s.slots && s.slots[id].kind == kind
      then State(s.slots - {id}, Resolve(s.outcomes, s.slots[id].waiter, Acknowledged))
      else Dropped(s, id)
    case TimeOut(id, w) => State(s.slots - {id}, Resolve(s.outcomes, w, TimedOut))
    case SendFailed(id, w) => State(s.slots, Resolve(s.outcomes, w, Closed))
    case Abandon =>
      State(map[], map w | w in s.outcomes ::
        if s.outcomes[w] == Waiting && (exists id | id in s.slots :: s.slots[id].waiter == w) then Closed else s.outcomes[w])
  }

  /** Waiters are new when they register, and give up only while they wait. */
  ghost predicate Enabled(s: State, e: Event) {
    match e
    case Register(_, _, w) => w !in s.outcomes
    case TimeOut(id, w) => id in s.slots && s.slots[id].waiter == w && w in s.outcomes && s.outcomes[w] == Waiting
    case SendFailed(id, w) => id in s.slots && s.slots[id].waiter == w && w in s.outcomes && s.outcomes[w] == Waiting
    case _ => true
  }

  function Run(s: State, h: seq<Event>): State
    decreases |h|
  {
    if h == [] then s else Run(Step(s, h[0]), h[1..])
  }

  ghost predicate Legal(s: State, h: seq<Event>)
    decreases |h|
  {
    h == [] || (Enabled(s, h[0]) && Legal(Step(s, h[0]), h[1..]))
  }

  /** The table that the client's operations and its reader share; one atomic map operation per method. */
  class AckTable {
    var pendingAcks: map<U16, Slot>
    var outcomes: map<nat, Outcome>

    function View(): State
      reads this
    {
      State(pendingAcks, outcomes)
    }

    constructor ()
      ensures View() == INITIAL
    {
      pendingAcks, outcomes := map[], map[];
    }

    method Insert(id: U16, kind: AckKind, waiter: nat)
      requires waiter !in outcomes
      modifies this
      ensures View() == Step(old(View()), Register(id, kind, waiter))
    {
      if id in pendingAcks {
        outcomes := Resolve(outcomes, pendingAcks[id].waiter, Closed);
      }
      pendingAcks := pendingAcks[id := Slot(kind, waiter)];
      outcomes := outcomes[waiter := Waiting];
      assert pendingAcks == (old(pendingAcks) - {id})[id := Slot(kind, waiter)];
    }

    /** `fire_ack`, `fire_suback` and `fire_unsuback`: the slot leaves the table whatever its kind. */
    method Fire(id: U16, kind: AckKind)
      modifies this
      ensures View() == Step(old(View()), Ack(id, kind))
    {
      if id in pendingAcks {
        var slot := pendingAcks[id];
        pendingAcks := pendingAcks - {id};
        if slot.kind == kind {
          outcomes := Resolve(outcomes, slot.waiter, Acknowledged);
        } else {
          outcomes := Resolve(outcomes, slot.waiter, Closed);
        }
      }
    }

    method GiveUp(id: U16, waiter: nat)
      modifies this
      ensures View() == Step(old(View()), TimeOut(id, waiter))
    {
      pendingAcks := pendingAcks - {id};
      outcomes := Resolve(outcomes, waiter, TimedOut);
    }

    /** `abandon` drops every sender. */
    method Clear()
      modifies this
      ensures View() == Step(old(View()), Abandon)
    {
      var closing := set id | id in pendingAcks :: pendingAcks[id].waiter;
      outcomes := map w | w in outcomes :: if outcomes[w] == Waiting && w in closing then Closed else outcomes[w];
      pendingAcks := map[];
    }
  }

  // ---------- over any run ----------

  /** The outcome of the waiter that registered for `kind` and `id`, decided by the first event that touches it. */
  function Verdict(h: seq<Event>, id: U16, kind: AckKind, waiter: nat): Outcome {
    if h == [] then Waiting
    else if Decides(h[0], id, kind, waiter).Some? then Decides(h[0], id, kind, waiter).value
    else Verdict(h[1..], id, kind, waiter)
  }

  /** What one event decides for the waiter that waits for `kind` under `id`. */
  function Decides(e: Event, id: U16, kind: AckKind, waiter: nat): Option<Outcome> {
    match e
    case Register(i, _, _) => if i == id then Some(Closed) else None
    case Ack(i, k) => if i != id then None else if k == kind then Some(Acknowledged) else Some(Closed)
    case TimeOut(_, w) => if w == waiter then Some(TimedOut) else None
    case SendFailed(_, w) => if w == waiter then Some(Closed) else None
    case Abandon => Some(Closed)
  }

  /** A waiter that waits sits in a slot. */
  ghost predicate Seated(s: State) {
    forall w | w in s.outcomes && s.outcomes[w] == Waiting :: exists id | id in s.slots :: s.slots[id].waiter == w
  }

  /** Each slot has a known waiter, and no two have the same. */
  ghost predicate Owned(s: State) {
    && (forall i, j | i in s.slots && j in s.slots && s.slots[i].waiter == s.slots[j].waiter :: i == j)
    && (forall i | i in s.slots :: s.slots[i].waiter in s.outcomes)
  }

  ghost predicate Inv(s: State) {
    Seated(s) && Owned(s)
  }

  lemma StepInv(s: State, e: Event)
    requires Inv(s) && Enabled(s, e)
    ensures Inv(Step(s, e))
  {
    hide Step, Enabled, Inv;
    StepSeats(s, e);
    StepOwners(s, e);
    InvIs(Step(s, e));
  }

  lemma InvIs(s: State)
    requires Seated(s) && Owned(s)
    ensures Inv(s)
  {
  }

  lemma StepSeats(s: State, e: Event)
    requires Inv(s) && Enabled(s, e)
    ensures Seated(Step(s, e))
  {
    var t := Step(s, e);
    forall w | w in t.outcomes && t.outcomes[w] == Waiting
      ensures exists id | id in t.slots :: t.slots[id].waiter == w
    {
      if e.Register? && w == e.waiter {
        assert t.slots[e.id].waiter == w;
      } else if !e.Abandon? {
        var id :| id in s.slots && s.slots[id].waiter == w;
        assert id in t.slots;
      }
    }
  }

  lemma StepOwners(s: State, e: Event)
    requires Inv(s) && Enabled(s, e)
    ensures Owned(Step(s, e))
  {
    hide Seated;
  }

  lemma {:induction false} RunInv(s: State, h: seq<Event>)
    requires Inv(s) && Legal(s, h)
    ensures Inv(Run(s, h))
    decreases |h|
  {
    if h != [] {
      StepInv(s, h[0]);
      RunInv(Step(s, h[0]), h[1..]);
    }
  }

  /** No later event changes how a waiter was resolved. */
  lemma {:induction false} ResolvedOnce(s: State, h: seq<Event>, w: nat)
    requires Legal(s, h) && w in s.outcomes && s.outcomes[w] != Waiting
    ensures w in Run(s, h).outcomes && Run(s, h).outcomes[w] == s.outcomes[w]
    decreases |h|
  {
    if h != [] {
      ResolvedOnce(Step(s, h[0]), h[1..], w);
    }
  }

  lemma {:induction false} VerdictHolds(s: State, h: seq<Event>, id: U16, kind: AckKind, w: nat)
    requires Inv(s) && Legal(s, h)
    requires id in s.slots && s.slots[id] == Slot(kind, w) && w in s.outcomes && s.outcomes[w] == Waiting
    ensures w in Run(s, h).outcomes && Run(s, h).outcomes[w] == Verdict(h, id, kind, w)
    decreases |h|
  {
    hide Inv, Step, Enabled, Decides;
    if h != [] {
      var t := Step(s, h[0]);
      StepInv(s, h[0]);
      DecidesHolds(s, h[0], id, kind, w);
      if t.outcomes[w] != Waiting {
        ResolvedOnce(t, h[1..], w);
      } else {
        VerdictHolds(t, h[1..], id, kind, w);
      }
    }
  }

  lemma DecidesHolds(s: State, e: Event, id: U16, kind: AckKind, w: nat)
    requires Inv(s) && Enabled(s, e)
    requires id in s.slots && s.slots[id] == Slot(kind, w) && w in s.outcomes && s.outcomes[w] == Waiting
    ensures var t, d := Step(s, e), Decides(e, id, kind, w);
            && w in t.outcomes && t.outcomes[w] == (if d.Some? then d.value else Waiting)
            && d != Some(Waiting)
            && (d.None? ==> id in t.slots && t.slots[id] == Slot(kind, w))
  {
    hide Seated;
  }

  /**
    Conservation of waiters. In any legal run from the start, a waiter that
    registers is resolved at most once, by the first later event that touches
    it: an acknowledgement of its own kind and identifier succeeds; one of
    another kind, a registration under the same identifier, a failed send or an
    abandon closes it; its own timer times it out; otherwise it still waits.
   */
  lemma {:induction false} WaiterConserved(before: seq<Event>, id: U16, kind: AckKind, w: nat, after: seq<Event>)
    requires Legal(INITIAL, before + [Register(id, kind, w)] + after)
    ensures var s := Run(INITIAL, before + [Register(id, kind, w)] + after);
            w in s.outcomes && s.outcomes[w] == Verdict(after, id, kind, w)
  {
    var r := [Register(id, kind, w)];
    assert before + r + after == before + (r + after);
    RunSplit(INITIAL, before, r + after);
    var s := Run(INITIAL, before);
    RunInv(INITIAL, before);
    StepInv(s, r[0]);
    assert (r + after)[1..] == after;
    VerdictHolds(Step(s, r[0]), after, id, kind, w);
  }

  lemma {:induction false} RunSnoc(s: State, h: seq<Event>, e: Event)
    requires Legal(s, h) && Enabled(Run(s, h), e)
    ensures Legal(s, h + [e]) && Run(s, h + [e]) == Step(Run(s, h), e)
    decreases |h|
  {
    hide Step, Enabled;
    if h == [] {
      assert h + [e] == [e] && [e][1..] == [];
    } else {
      assert (h + [e])[0] == h[0] && (h + [e])[1..] == h[1..] + [e];
      RunSnoc(Step(s, h[0]), h[1..], e);
    }
  }

  lemma {:induction false} RunSplit(s: State, a: seq<Event>, b: seq<Event>)
    requires Legal(s, a + b)
    ensures Legal(s, a) && Legal(Run(s, a), b) && Run(s, a + b) == Run(Run(s, a), b)
    decreases |a|
  {
    if a == [] {
      assert a + b == b;
    } else {
      assert (a + b)[0] == a[0] && (a + b)[1..] == a[1..] + b;
      RunSplit(Step(s, a[0]), a[1..], b);
    }
  }
}
