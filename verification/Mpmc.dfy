/**
 The bounded multi-producer multi-consumer ticket queue (rigtorp::MPMCQueue).

 One step is one atomic load, store, compare-exchange or fetch-and-add of one
 thread, or one access to a slot's storage. `sent`, `received`, `pusher` and
 `popper` are history variables: the value pushed with each ticket, the value
 popped with it, and the thread that drew it.
 */
module Mpmc {
  import opened Common
  import opened Modular

  type Tid = nat
  type Value(==, !new)

  datatype Cell = Raw | Live(v: Value)

  /** The next operation of a thread. The number k is its ticket. */
  datatype Pc =
    | Idle
    // emplace
    | PushClaim(v: Value)
    | PushWait(v: Value, k: nat)
    | PushConstruct(v: Value, k: nat)
    | PushPublish(v: Value, k: nat)
    // try_emplace
    | TryPushLoad(v: Value)
    | TryPushTurn(v: Value, k: nat)
    | TryPushCas(v: Value, k: nat)
    | TryPushReload(v: Value, k: nat, saw: nat)
    // pop
    | PopClaim
    | PopWait(k: nat)
    | PopMove(k: nat)
    | PopDestroy(k: nat, out: Value)
    | PopPublish(k: nat, out: Value)
    // try_pop
    | TryPopLoad
    | TryPopTurn(k: nat)
    | TryPopCas(k: nat)
    | TryPopReload(k: nat, saw: nat)

  datatype State = State(
    capacity: nat,
    head: nat,
    tail: nat,
    turn: seq<nat>,
    cell: seq<Cell>,
    pcs: seq<Pc>,
    sent: seq<Value>,
    received: map<nat, Value>,
    pusher: seq<Tid>,
    popper: seq<Tid>)

  function Idx(s: State, k: nat): (i: nat)
    requires s.capacity > 0
    ensures i < s.capacity
  {
    Mod(k, s.capacity)
  }

  function Lap(s: State, k: nat): nat
    requires s.capacity > 0
  {
    Laps(k, s.capacity)
  }

  ghost predicate Shaped(s: State) {
    && s.capacity > 0
    && |s.turn| == |s.cell| == s.capacity
  }

  // ---------------------------------------------------------------- steps

  ghost function Advance(s: State, t: Tid): State
    requires Shaped(s) && t < |s.pcs|
  {
    match s.pcs[t]
    case Idle => s
    case PushClaim(v) =>
      s.(head := s.head + 1, pcs := s.pcs[t := PushWait(v, s.head)],
         sent := s.sent + [v], pusher := s.pusher + [t])
    case PushWait(v, k) =>
      if s.turn[Idx(s, k)] == 2 * Lap(s, k) then s.(pcs := s.pcs[t := PushConstruct(v, k)]) else s
    case PushConstruct(v, k) =>
      s.(cell := s.cell[Idx(s, k) := Live(v)], pcs := s.pcs[t := PushPublish(v, k)])
    case PushPublish(v, k) =>
      s.(turn := s.turn[Idx(s, k) := 2 * Lap(s, k) + 1], pcs := s.pcs[t := Idle])
    case TryPushLoad(v) =>
      s.(pcs := s.pcs[t := TryPushTurn(v, s.head)])
    case TryPushTurn(v, k) =>
      var saw := s.turn[Idx(s, k)];
      s.(pcs := s.pcs[t := if saw == 2 * Lap(s, k) then TryPushCas(v, k) else TryPushReload(v, k, saw)])
    case TryPushCas(v, k) =>
      if s.head == k then
        s.(head := k + 1, pcs := s.pcs[t := PushConstruct(v, k)],
           sent := s.sent + [v], pusher := s.pusher + [t])
      else
        s.(pcs := s.pcs[t := TryPushTurn(v, s.head)])
    case TryPushReload(v, k, _) =>
      s.(pcs := s.pcs[t := if s.head == k then Idle else TryPushTurn(v, s.head)])
    case PopClaim =>
      s.(tail := s.tail + 1, pcs := s.pcs[t := PopWait(s.tail)], popper := s.popper + [t])
    case PopWait(k) =>
      if s.turn[Idx(s, k)] == 2 * Lap(s, k) + 1 then s.(pcs := s.pcs[t := PopMove(k)]) else s
    case PopMove(k) =>
      var c := s.cell[Idx(s, k)];
      if c.Live? then s.(pcs := s.pcs[t := PopDestroy(k, c.v)]) else s
    case PopDestroy(k, out) =>
      s.(cell := s.cell[Idx(s, k) := Raw], pcs := s.pcs[t := PopPublish(k, out)])
    case PopPublish(k, out) =>
      s.(turn := s.turn[Idx(s, k) := 2 * Lap(s, k) + 2], pcs := s.pcs[t := Idle],
         received := s.received[k := out])
    case TryPopLoad =>
      s.(pcs := s.pcs[t := TryPopTurn(s.tail)])
    case TryPopTurn(k) =>
      var saw := s.turn[Idx(s, k)];
      s.(pcs := s.pcs[t := if saw == 2 * Lap(s, k) + 1 then TryPopCas(k) else TryPopReload(k, saw)])
    case TryPopCas(k) =>
      if s.tail == k then
        s.(tail := k + 1, pcs := s.pcs[t := PopMove(k)], popper := s.popper + [t])
      else
        s.(pcs := s.pcs[t := TryPopTurn(s.tail)])
    case TryPopReload(k, _) =>
      s.(pcs := s.pcs[t := if s.tail == k then Idle else TryPopTurn(s.tail)])
  }

  predicate Starts(p: Pc) {
    p.PushClaim? || p.TryPushLoad? || p.PopClaim? || p.TryPopLoad?
  }

  ghost predicate Step(s: State, t: Tid, s': State)
    requires Shaped(s)
  {
    && t < |s.pcs|
    && if s.pcs[t].Idle? then exists p :: Starts(p) && s' == s.(pcs := s.pcs[t := p]) else s' == Advance(s, t)
  }

  ghost predicate Init(s: State) {
    && Shaped(s)
    && s.head == s.tail == 0
    && (forall i :: 0 <= i < s.capacity ==> s.turn[i] == 0 && s.cell[i] == Raw)
    && (forall t :: 0 <= t < |s.pcs| ==> s.pcs[t] == Idle)
    && s.sent == [] && s.pusher == [] && s.popper == [] && s.received == map[]
  }

  // ------------------------------------------------------------ invariant

  predicate Pushing(p: Pc, k: nat) {
    (p.PushWait? || p.PushConstruct? || p.PushPublish?) && p.k == k
  }

  predicate Popping(p: Pc, k: nat) {
    (p.PopWait? || p.PopMove? || p.PopDestroy? || p.PopPublish?) && p.k == k
  }

  /** The push with ticket k has stored its turn. */
  ghost predicate Pushed(s: State, k: nat)
    requires Shaped(s)
  {
    s.turn[Idx(s, k)] > 2 * Lap(s, k)
  }

  /** The pop with ticket k has stored its turn. */
  ghost predicate Popped(s: State, k: nat)
    requires Shaped(s)
  {
    s.turn[Idx(s, k)] > 2 * Lap(s, k) + 1
  }

  /** History: the push with ticket k was drawn, and its thread has left it. */
  ghost predicate PushDone(s: State, k: nat) {
    k < s.head && k < |s.pusher| && s.pusher[k] < |s.pcs| && !Pushing(s.pcs[s.pusher[k]], k)
  }

  ghost predicate PushTicketOk(s: State, k: nat)
    requires Shaped(s) && |s.pusher| == s.head
  {
    if k < s.head then
      s.pusher[k] < |s.pcs| && (Pushed(s, k) <==> !Pushing(s.pcs[s.pusher[k]], k))
    else
      !Pushed(s, k)
  }

  ghost predicate PopTicketOk(s: State, k: nat)
    requires Shaped(s) && |s.popper| == s.tail
  {
    if k < s.tail then
      && s.popper[k] < |s.pcs|
      && (Popped(s, k) <==> !Popping(s.pcs[s.popper[k]], k))
      && (Popped(s, k) <==> k in s.received)
    else
      !Popped(s, k) && k !in s.received
  }

  /** The ticket whose push or pop slot i is waiting for. */
  function TicketAt(s: State, i: nat, turn: nat): nat {
    CountAt(i, s.capacity, turn / 2)
  }

  ghost predicate SlotOk(s: State, i: nat)
    requires Shaped(s) && |s.pusher| == |s.sent| == s.head && |s.popper| == s.tail && i < s.capacity
  {
    var k := TicketAt(s, i, s.turn[i]);
    if s.turn[i] % 2 == 0 then
      if s.cell[i].Raw? then
        k < s.head && s.pusher[k] < |s.pcs| ==> s.pcs[s.pusher[k]] != PushPublish(s.sent[k], k)
      else
        && k < s.head && s.pusher[k] < |s.pcs|
        && s.pcs[s.pusher[k]] == PushPublish(s.sent[k], k) && s.cell[i] == Live(s.sent[k])
    else
      && k < s.head
      && if s.cell[i].Raw? then
           && k < s.tail && s.popper[k] < |s.pcs|
           && s.pcs[s.popper[k]] == PopPublish(k, s.sent[k])
         else
           && s.cell[i] == Live(s.sent[k])
           && (k < s.tail && s.popper[k] < |s.pcs| ==> !s.pcs[s.popper[k]].PopPublish? || s.pcs[s.popper[k]].k != k)
  }

  ghost predicate ThreadOk(s: State, t: Tid)
    requires Shaped(s) && |s.pusher| == |s.sent| == s.head && |s.popper| == s.tail && t < |s.pcs|
  {
    match s.pcs[t]
    case PushWait(v, k) => k < s.head && s.pusher[k] == t && s.sent[k] == v
    case PushConstruct(v, k) => k < s.head && s.pusher[k] == t && s.sent[k] == v && s.turn[Idx(s, k)] == 2 * Lap(s, k)
    case PushPublish(v, k) => k < s.head && s.pusher[k] == t && s.sent[k] == v && s.turn[Idx(s, k)] == 2 * Lap(s, k)
    case TryPushTurn(_, k) => k <= s.head
    case TryPushCas(_, k) => k <= s.head && s.turn[Idx(s, k)] >= 2 * Lap(s, k)
    case TryPushReload(_, k, saw) =>
      && k <= s.head && saw != 2 * Lap(s, k)
      && (saw > 2 * Lap(s, k) ==> k < s.head)
    case PopWait(k) => k < s.tail && s.popper[k] == t
    case PopMove(k) => k < s.tail && s.popper[k] == t && s.turn[Idx(s, k)] == 2 * Lap(s, k) + 1
    case PopDestroy(k, out) =>
      && k < s.tail && s.popper[k] == t && s.turn[Idx(s, k)] == 2 * Lap(s, k) + 1
      && k < s.head && out == s.sent[k]
    case PopPublish(k, out) =>
      && k < s.tail && s.popper[k] == t && s.turn[Idx(s, k)] == 2 * Lap(s, k) + 1
      && k < s.head && out == s.sent[k]
    case TryPopTurn(k) => k <= s.tail
    case TryPopCas(k) => k <= s.tail && s.turn[Idx(s, k)] >= 2 * Lap(s, k) + 1
    case TryPopReload(k, saw) =>
      && k <= s.tail && saw != 2 * Lap(s, k) + 1
      && (saw > 2 * Lap(s, k) + 1 ==> k < s.tail)
    case _ => true
  }

  ghost predicate Inv(s: State) {
    && Shaped(s)
    && |s.pusher| == |s.sent| == s.head && |s.popper| == s.tail
    && (forall k: nat :: PushTicketOk(s, k))
    && (forall k: nat :: PopTicketOk(s, k))
    && (forall i :: 0 <= i < s.capacity ==> SlotOk(s, i))
    && (forall t :: 0 <= t < |s.pcs| ==> ThreadOk(s, t))
    && (forall k :: k in s.received ==> k < s.head && s.received[k] == s.sent[k])
  }

  // --------------------------------------------------------------- tickets

  /** A ticket is its lap and its slot. */
  lemma TicketOf(s: State, k: nat)
    requires s.capacity > 0
    ensures TicketAt(s, Idx(s, k), 2 * Lap(s, k)) == TicketAt(s, Idx(s, k), 2 * Lap(s, k) + 1) == k
  {
    assert (2 * Lap(s, k)) / 2 == Lap(s, k) == (2 * Lap(s, k) + 1) / 2;
    CountAtPosition(k, s.capacity);
  }

  lemma TicketAtInverse(s: State, i: nat, turn: nat)
    requires s.capacity > 0 && i < s.capacity
    ensures Idx(s, TicketAt(s, i, turn)) == i && Lap(s, TicketAt(s, i, turn)) == turn / 2
  {
    PositionOfCount(i, s.capacity, turn / 2);
  }

  lemma SameTicket(s: State, j: nat, k: nat)
    requires s.capacity > 0 && Idx(s, j) == Idx(s, k) && Lap(s, j) == Lap(s, k)
    ensures j == k
  {
    TicketOf(s, j);
    TicketOf(s, k);
  }

  /** Earlier tickets of a slot are in earlier laps; the previous one is `capacity` before. */
  lemma LapOrder(s: State, j: nat, k: nat)
    requires s.capacity > 0 && Idx(s, j) == Idx(s, k)
    ensures j < k <==> Lap(s, j) < Lap(s, k)
    ensures j < k ==> j + s.capacity <= k
  {
    CountAtPosition(j, s.capacity);
    CountAtPosition(k, s.capacity);
    if Lap(s, j) < Lap(s, k) { CountAtGrows(Idx(s, j), s.capacity, Lap(s, j), Lap(s, k)); }
    if Lap(s, k) < Lap(s, j) { CountAtGrows(Idx(s, j), s.capacity, Lap(s, k), Lap(s, j)); }
  }

  // ---------------------------------------------------- every step keeps Inv

  predicate Publishing(p: Pc) {
    p.PushPublish? || p.PopPublish?
  }

  /** Thread t moved without changing its ticket, nothing else changed. */
  lemma LocalStep(s: State, t: Tid, p: Pc)
    requires Inv(s) && t < |s.pcs|
    requires forall k :: Pushing(p, k) == Pushing(s.pcs[t], k) && Popping(p, k) == Popping(s.pcs[t], k)
    requires !Publishing(p) && !Publishing(s.pcs[t])
    requires ThreadOk(s.(pcs := s.pcs[t := p]), t)
    ensures Inv(s.(pcs := s.pcs[t := p]))
  {
    var s' := s.(pcs := s.pcs[t := p]);
    forall k: nat ensures PushTicketOk(s', k) && PopTicketOk(s', k) {
      assert PushTicketOk(s, k) && PopTicketOk(s, k);
      assert Pushing(p, k) == Pushing(s.pcs[t], k) && Popping(p, k) == Popping(s.pcs[t], k);
    }
    forall i | 0 <= i < s.capacity ensures SlotOk(s', i) {
      assert SlotOk(s, i);
    }
    forall u | 0 <= u < |s.pcs| ensures ThreadOk(s', u) {
      assert ThreadOk(s, u);
    }
  }

  /** Thread t draws the next push ticket. */
  lemma DrawPush(s: State, t: Tid, v: Value, p: Pc)
    requires Inv(s) && t < |s.pcs| && !Publishing(s.pcs[t])
    requires forall k :: !Pushing(s.pcs[t], k) && !Popping(s.pcs[t], k)
    requires p == PushWait(v, s.head)
      || (p == PushConstruct(v, s.head) && s.turn[Idx(s, s.head)] == 2 * Lap(s, s.head))
    ensures Inv(s.(head := s.head + 1, pcs := s.pcs[t := p], sent := s.sent + [v], pusher := s.pusher + [t]))
  {
    var s' := s.(head := s.head + 1, pcs := s.pcs[t := p], sent := s.sent + [v], pusher := s.pusher + [t]);
    forall k: nat ensures PushTicketOk(s', k) && PopTicketOk(s', k) {
      assert PushTicketOk(s, k) && PopTicketOk(s, k);
      assert !Pushing(s.pcs[t], k) && !Popping(s.pcs[t], k);
    }
    forall i | 0 <= i < s.capacity ensures SlotOk(s', i) {
      assert SlotOk(s, i);
      assert TicketAt(s', i, s'.turn[i]) == TicketAt(s, i, s.turn[i]);
    }
    forall u | 0 <= u < |s.pcs| ensures ThreadOk(s', u) {
      assert ThreadOk(s, u);
    }
  }

  lemma DrawPop(s: State, t: Tid, p: Pc)
    requires Inv(s) && t < |s.pcs| && !Publishing(s.pcs[t])
    requires forall k :: !Pushing(s.pcs[t], k) && !Popping(s.pcs[t], k)
    requires p == PopWait(s.tail)
      || (p == PopMove(s.tail) && s.turn[Idx(s, s.tail)] == 2 * Lap(s, s.tail) + 1)
    ensures Inv(s.(tail := s.tail + 1, pcs := s.pcs[t := p], popper := s.popper + [t]))
  {
    var s' := s.(tail := s.tail + 1, pcs := s.pcs[t := p], popper := s.popper + [t]);
    forall k: nat ensures PushTicketOk(s', k) && PopTicketOk(s', k) {
      assert PushTicketOk(s, k) && PopTicketOk(s, k);
      assert !Pushing(s.pcs[t], k) && !Popping(s.pcs[t], k);
    }
    forall i | 0 <= i < s.capacity ensures SlotOk(s', i) {
      assert SlotOk(s, i);
      assert TicketAt(s', i, s'.turn[i]) == TicketAt(s, i, s.turn[i]);
    }
    forall u | 0 <= u < |s.pcs| ensures ThreadOk(s', u) {
      assert ThreadOk(s, u);
    }
  }

  /** The slot a thread works in is waiting for that thread's ticket. */
  lemma MySlot(s: State, t: Tid, k: nat)
    requires Inv(s) && t < |s.pcs|
    requires s.pcs[t].PushConstruct? || s.pcs[t].PushPublish? || s.pcs[t].PopMove? || s.pcs[t].PopDestroy? || s.pcs[t].PopPublish?
    requires s.pcs[t].k == k
    ensures TicketAt(s, Idx(s, k), s.turn[Idx(s, k)]) == k
    ensures s.pcs[t].PushConstruct? ==> s.cell[Idx(s, k)] == Raw
    ensures s.pcs[t].PushPublish? ==> k < s.head && s.cell[Idx(s, k)] == Live(s.sent[k])
    ensures s.pcs[t].PopMove? || s.pcs[t].PopDestroy? ==> k < s.head && s.cell[Idx(s, k)] == Live(s.sent[k])
    ensures s.pcs[t].PopPublish? ==> k < s.head && s.cell[Idx(s, k)] == Raw
  {
    assert ThreadOk(s, t) && SlotOk(s, Idx(s, k));
    TicketOf(s, k);
  }

  lemma SlotFrame(s: State, s': State, t: Tid, i: nat)
    requires Inv(s) && Shaped(s') && i < s.capacity == s'.capacity && t < |s.pcs|
    requires |s'.pcs| == |s.pcs| && s'.pcs == s.pcs[t := s'.pcs[t]]
    requires s'.head == s.head && s'.tail == s.tail && s'.sent == s.sent && s'.pusher == s.pusher && s'.popper == s.popper
    requires s'.turn[i] == s.turn[i] && s'.cell[i] == s.cell[i]
    requires Publishing(s.pcs[t]) ==> Idx(s, s.pcs[t].k) != i
    requires Publishing(s'.pcs[t]) ==> Idx(s, s'.pcs[t].k) != i
    ensures SlotOk(s', i)
  {
    assert SlotOk(s, i);
    TicketAtInverse(s, i, s.turn[i]);
  }

  /** No other thread is in the critical part of the slot where t works. */
  lemma Alone(s: State, t: Tid, u: Tid)
    requires Inv(s) && t < |s.pcs| && u < |s.pcs| && t != u
    requires InSlot(s.pcs[t]) && InSlot(s.pcs[u])
    ensures Idx(s, s.pcs[t].k) != Idx(s, s.pcs[u].k)
  {
    assert ThreadOk(s, t) && ThreadOk(s, u);
    var j, k := s.pcs[t].k, s.pcs[u].k;
    if Idx(s, j) == Idx(s, k) {
      assert Lap(s, j) == Lap(s, k);
      SameTicket(s, j, k);
    }
  }

  /** Constructing, moving out of or destroying the object of a slot, or about to store its turn. */
  predicate InSlot(p: Pc) {
    p.PushConstruct? || p.PushPublish? || p.PopMove? || p.PopDestroy? || p.PopPublish?
  }

  /** Thread t wrote the object of its slot: tickets and other threads are not concerned. */
  lemma CellStep(s: State, s': State, t: Tid)
    requires Inv(s) && t < |s.pcs| && |s'.pcs| == |s.pcs| && InSlot(s.pcs[t]) && InSlot(s'.pcs[t])
    requires s' == s.(cell := s'.cell, pcs := s.pcs[t := s'.pcs[t]]) && |s'.cell| == |s.cell|
    requires s'.pcs[t].k == s.pcs[t].k
    requires Pushing(s.pcs[t], s.pcs[t].k) == Pushing(s'.pcs[t], s.pcs[t].k)
    requires forall i :: 0 <= i < s.capacity && i != Idx(s, s.pcs[t].k) ==> s'.cell[i] == s.cell[i]
    requires SlotOk(s', Idx(s, s.pcs[t].k)) && ThreadOk(s', t)
    ensures Inv(s')
  {
    var k := s.pcs[t].k;
    forall j: nat ensures PushTicketOk(s', j) && PopTicketOk(s', j) {
      assert PushTicketOk(s, j) && PopTicketOk(s, j);
    }
    forall i | 0 <= i < s.capacity ensures SlotOk(s', i) {
      if i != Idx(s, k) { SlotFrame(s, s', t, i); }
    }
    CellThreads(s, s', t);
  }

  lemma CellThreads(s: State, s': State, t: Tid)
    requires Inv(s) && t < |s.pcs| && |s'.pcs| == |s.pcs| && ThreadOk(s.(pcs := s'.pcs), t)
    requires s' == s.(cell := s'.cell, pcs := s.pcs[t := s'.pcs[t]]) && |s'.cell| == |s.cell|
    ensures forall u :: 0 <= u < |s.pcs| ==> ThreadOk(s', u)
  {
    forall u | 0 <= u < |s.pcs| ensures ThreadOk(s', u) {
      assert ThreadOk(s, u);
    }
  }

  lemma ConstructKeeps(s: State, t: Tid)
    requires Inv(s) && t < |s.pcs| && s.pcs[t].PushConstruct?
    ensures Inv(Advance(s, t))
  {
    assert ThreadOk(s, t);
    MySlot(s, t, s.pcs[t].k);
    CellStep(s, Advance(s, t), t);
  }

  lemma DestroyKeeps(s: State, t: Tid)
    requires Inv(s) && t < |s.pcs| && s.pcs[t].PopDestroy?
    ensures Inv(Advance(s, t))
  {
    assert ThreadOk(s, t);
    MySlot(s, t, s.pcs[t].k);
    CellStep(s, Advance(s, t), t);
  }

  /** While ticket k is being popped, the push a lap later has not started on the slot. */
  lemma NextTicketFree(s: State, t: Tid)
    requires Inv(s) && t < |s.pcs| && s.pcs[t].PopPublish?
    ensures var s' := Advance(s, t); SlotOk(s', Idx(s, s.pcs[t].k))
  {
    var k, s' := s.pcs[t].k, Advance(s, t);
    var i := Idx(s, k);
    assert ThreadOk(s, t);
    MySlot(s, t, k);
    var n := TicketAt(s', i, s'.turn[i]);
    TicketAtInverse(s, i, s'.turn[i]);
    assert Lap(s, n) == Lap(s, k) + 1;
    if n < s.head && s.pusher[n] < |s.pcs| {
      assert ThreadOk(s, s.pusher[n]);
    }
  }

  /** After the push has stored its turn, the slot holds its value, and its pop has not destroyed it. */
  lemma PublishedSlot(s: State, t: Tid)
    requires Inv(s) && t < |s.pcs| && s.pcs[t].PushPublish?
    ensures var s' := Advance(s, t); SlotOk(s', Idx(s, s.pcs[t].k))
  {
    var k := s.pcs[t].k;
    assert ThreadOk(s, t);
    MySlot(s, t, k);
    TicketOf(s, k);
    if k < s.tail && s.popper[k] < |s.pcs| {
      assert ThreadOk(s, s.popper[k]);
    }
  }

  /** Storing the next turn finishes ticket k and no other. */
  lemma TurnTicket(s: State, s': State, t: Tid, j: nat)
    requires Inv(s) && t < |s.pcs| && Publishing(s.pcs[t])
    requires s' == s.(turn := s'.turn, pcs := s.pcs[t := Idle], received := s'.received)
    requires s'.turn == s.turn[Idx(s, s.pcs[t].k) := s.turn[Idx(s, s.pcs[t].k)] + 1]
    requires if s.pcs[t].PopPublish? then s'.received == s.received[s.pcs[t].k := s.pcs[t].out] else s'.received == s.received
    ensures PushTicketOk(s', j) && PopTicketOk(s', j)
  {
    var k := s.pcs[t].k;
    assert ThreadOk(s, t) && PushTicketOk(s, k) && PopTicketOk(s, k);
    assert PushTicketOk(s, j) && PopTicketOk(s, j);
    if Idx(s, j) == Idx(s, k) && j != k { LapOrder(s, j, k); LapOrder(s, k, j); }
  }

  /** Thread t stores the turn of its slot and leaves. */
  lemma TurnStep(s: State, s': State, t: Tid)
    requires Inv(s) && t < |s.pcs| && Publishing(s.pcs[t])
    requires s' == s.(turn := s'.turn, pcs := s.pcs[t := Idle], received := s'.received)
    requires s'.turn == s.turn[Idx(s, s.pcs[t].k) := s.turn[Idx(s, s.pcs[t].k)] + 1]
    requires if s.pcs[t].PopPublish? then s'.received == s.received[s.pcs[t].k := s.pcs[t].out] else s'.received == s.received
    requires SlotOk(s', Idx(s, s.pcs[t].k))
    ensures Inv(s')
  {
    var k := s.pcs[t].k;
    assert ThreadOk(s, t) && PushTicketOk(s, k) && PopTicketOk(s, k);
    forall j: nat ensures PushTicketOk(s', j) && PopTicketOk(s', j) {
      TurnTicket(s, s', t, j);
    }
    forall i | 0 <= i < s.capacity ensures SlotOk(s', i) {
      if i != Idx(s, k) { SlotFrame(s, s', t, i); }
    }
    TurnThreads(s, s', t);
  }

  lemma TurnThreads(s: State, s': State, t: Tid)
    requires Inv(s) && t < |s.pcs| && Publishing(s.pcs[t])
    requires s' == s.(turn := s'.turn, pcs := s.pcs[t := Idle], received := s'.received)
    requires s'.turn == s.turn[Idx(s, s.pcs[t].k) := s.turn[Idx(s, s.pcs[t].k)] + 1]
    ensures forall u :: 0 <= u < |s.pcs| ==> ThreadOk(s', u)
  {
    forall u | 0 <= u < |s.pcs| ensures ThreadOk(s', u) {
      assert ThreadOk(s, u);
      if u != t && InSlot(s.pcs[u]) { Alone(s, t, u); }
    }
  }

  lemma PublishKeeps(s: State, t: Tid)
    requires Inv(s) && t < |s.pcs| && Publishing(s.pcs[t])
    ensures Inv(Advance(s, t))
  {
    assert ThreadOk(s, t);
    if s.pcs[t].PushPublish? { PublishedSlot(s, t); } else { NextTicketFree(s, t); }
    TurnStep(s, Advance(s, t), t);
  }

  lemma PushKeeps(s: State, t: Tid)
    requires Inv(s) && t < |s.pcs|
    requires s.pcs[t].PushClaim? || s.pcs[t].PushWait? || s.pcs[t].TryPushLoad? || s.pcs[t].TryPushTurn?
      || s.pcs[t].TryPushCas? || s.pcs[t].TryPushReload?
    ensures Inv(Advance(s, t))
  {
    assert ThreadOk(s, t);
    match s.pcs[t]
    case PushClaim(v) => DrawPush(s, t, v, PushWait(v, s.head));
    case PushWait(v, k) => if s.turn[Idx(s, k)] == 2 * Lap(s, k) { LocalStep(s, t, PushConstruct(v, k)); }
    case TryPushLoad(v) => LocalStep(s, t, TryPushTurn(v, s.head));
    case TryPushTurn(v, k) =>
      assert PushTicketOk(s, k);
      LocalStep(s, t, Advance(s, t).pcs[t]);
    case TryPushCas(v, k) =>
      assert PushTicketOk(s, k);
      if s.head == k { DrawPush(s, t, v, PushConstruct(v, k)); } else { LocalStep(s, t, TryPushTurn(v, s.head)); }
    case TryPushReload(v, k, _) => LocalStep(s, t, Advance(s, t).pcs[t]);
  }

  lemma PopKeeps(s: State, t: Tid)
    requires Inv(s) && t < |s.pcs|
    requires s.pcs[t].PopClaim? || s.pcs[t].PopWait? || s.pcs[t].PopMove? || s.pcs[t].TryPopLoad?
      || s.pcs[t].TryPopTurn? || s.pcs[t].TryPopCas? || s.pcs[t].TryPopReload?
    ensures Inv(Advance(s, t))
  {
    assert ThreadOk(s, t);
    match s.pcs[t]
    case PopClaim => DrawPop(s, t, PopWait(s.tail));
    case PopWait(k) => if s.turn[Idx(s, k)] == 2 * Lap(s, k) + 1 { LocalStep(s, t, PopMove(k)); }
    case PopMove(k) =>
      MySlot(s, t, k);
      LocalStep(s, t, PopDestroy(k, s.sent[k]));
    case TryPopLoad => LocalStep(s, t, TryPopTurn(s.tail));
    case TryPopTurn(k) =>
      assert PopTicketOk(s, k);
      LocalStep(s, t, Advance(s, t).pcs[t]);
    case TryPopCas(k) =>
      assert PopTicketOk(s, k);
      if s.tail == k { DrawPop(s, t, PopMove(k)); } else { LocalStep(s, t, TryPopTurn(s.tail)); }
    case TryPopReload(k, _) => LocalStep(s, t, Advance(s, t).pcs[t]);
  }

  lemma StepKeeps(s: State, t: Tid, s': State)
    requires Inv(s) && Step(s, t, s')
    ensures Inv(s')
  {
    match s.pcs[t]
    case Idle =>
      var p :| Starts(p) && s' == s.(pcs := s.pcs[t := p]);
      LocalStep(s, t, p);
    case PushConstruct(_, _) => ConstructKeeps(s, t);
    case PopDestroy(_, _) => DestroyKeeps(s, t);
    case PushPublish(_, _) => PublishKeeps(s, t);
    case PopPublish(_, _) => PublishKeeps(s, t);
    case PushClaim(_) => PushKeeps(s, t);
    case PushWait(_, _) => PushKeeps(s, t);
    case TryPushLoad(_) => PushKeeps(s, t);
    case TryPushTurn(_, _) => PushKeeps(s, t);
    case TryPushCas(_, _) => PushKeeps(s, t);
    case TryPushReload(_, _, _) => PushKeeps(s, t);
    case _ => PopKeeps(s, t);
  }

  // ------------------------------------------------------------- every run

  /** A run: states, and for each step the thread that took it. */
  ghost predicate IsRun(run: seq<State>, who: seq<Tid>) {
    && |run| == |who| + 1 && Init(run[0])
    && forall i :: 0 <= i < |who| ==> StepOk(run, who, i)
  }

  ghost predicate StepOk(run: seq<State>, who: seq<Tid>, i: nat)
    requires i < |who| < |run|
  {
    Shaped(run[i]) && Step(run[i], who[i], run[i+1])
  }

  ghost predicate Reachable(s: State) {
    exists run, who :: IsRun(run, who) && run[|who|] == s
  }

  lemma {:induction false} RunInv(run: seq<State>, who: seq<Tid>, i: nat)
    requires IsRun(run, who) && i < |run|
    ensures Inv(run[i])
  {
    if i == 0 {
      var s := run[0];
      forall k: nat ensures PushTicketOk(s, k) && PopTicketOk(s, k) {}
    } else {
      RunInv(run, who, i - 1);
      assert StepOk(run, who, i - 1);
      StepKeeps(run[i-1], who[i-1], run[i]);
    }
  }

  lemma Safety(s: State)
    requires Reachable(s)
    ensures Inv(s)
  {
    var run, who :| IsRun(run, who) && run[|who|] == s;
    RunInv(run, who, |who|);
  }

  // ------------------------------------------------------------- what it means

  /** The turn of a slot tells the history of its tickets. */
  lemma TurnTellsHistory(s: State, k: nat)
    requires Reachable(s) && Shaped(s)
    ensures PushDone(s, k) <==> s.turn[Idx(s, k)] > 2 * Lap(s, k)
    ensures k in s.received <==> s.turn[Idx(s, k)] > 2 * Lap(s, k) + 1
  {
    Safety(s);
    assert PushTicketOk(s, k) && PopTicketOk(s, k);
  }

  /** First in, first out by ticket: every finished pop returned the value pushed with its ticket. */
  lemma PopReturnsItsTicket(s: State, k: nat)
    requires Reachable(s) && Shaped(s)
    ensures |s.sent| == s.head
    ensures k in s.received ==> k < s.tail && PushDone(s, k) && s.received[k] == s.sent[k]
    ensures k < s.tail && k !in s.received ==> |s.popper| == s.tail && s.popper[k] < |s.pcs| && Popping(s.pcs[s.popper[k]], k)
  {
    Safety(s);
    assert PushTicketOk(s, k) && PopTicketOk(s, k);
  }

  /**
   Mutual exclusion on a slot: at most one thread constructs, moves from or
   destroys its object, only raw storage is constructed into, and only a live
   object with the value of the thread's ticket is moved from or destroyed.
   */
  lemma SlotExclusion(s: State, t: Tid, u: Tid)
    requires Reachable(s) && Shaped(s) && t < |s.pcs| && u < |s.pcs|
    ensures InSlot(s.pcs[t]) && InSlot(s.pcs[u]) && t != u ==> Idx(s, s.pcs[t].k) != Idx(s, s.pcs[u].k)
    ensures s.pcs[t].PushConstruct? ==> s.cell[Idx(s, s.pcs[t].k)] == Raw
    ensures s.pcs[t].PopMove? || s.pcs[t].PopDestroy? ==>
      s.pcs[t].k < |s.sent| && s.cell[Idx(s, s.pcs[t].k)] == Live(s.sent[s.pcs[t].k])
  {
    Safety(s);
    if InSlot(s.pcs[t]) {
      MySlot(s, t, s.pcs[t].k);
      if InSlot(s.pcs[u]) && t != u { Alone(s, t, u); }
    }
  }

  /** Slot i holds the published value of ticket k: it is there, or its pop has just taken it out. */
  ghost predicate HoldsValue(s: State, i: nat, k: nat)
    requires Shaped(s) && i < s.capacity
  {
    && PushDone(s, k) && k !in s.received && k < |s.sent|
    && (s.cell[i] == Live(s.sent[k])
        || (k < |s.popper| && s.popper[k] < |s.pcs| && s.pcs[s.popper[k]] == PopPublish(k, s.sent[k])))
  }

  /**
   A turn is odd exactly when the slot holds a value that has been pushed and not
   popped, and then its lap says whose; when it is even, every ticket drawn for the
   slot has been popped or is still being pushed.
   */
  lemma OddTurn(s: State, i: nat)
    requires Reachable(s) && Shaped(s) && i < s.capacity
    ensures s.turn[i] % 2 == 1 <==> exists k: nat :: Idx(s, k) == i && HoldsValue(s, i, k)
    ensures s.turn[i] % 2 == 1 ==> HoldsValue(s, i, TicketAt(s, i, s.turn[i]))
    ensures s.turn[i] % 2 == 0 ==> forall k: nat :: k < s.head && Idx(s, k) == i ==> k in s.received || !PushDone(s, k)
  {
    Safety(s);
    assert SlotOk(s, i);
    var k := TicketAt(s, i, s.turn[i]);
    TicketAtInverse(s, i, s.turn[i]);
    TurnTellsHistory(s, k);
    if s.turn[i] % 2 == 1 {
      assert Idx(s, k) == i && HoldsValue(s, i, k);
    }
    forall j: nat | Idx(s, j) == i && s.turn[i] % 2 == 0 ensures j in s.received || !PushDone(s, j) {
      TurnTellsHistory(s, j);
    }
  }

  /** With every thread idle, the slots hold exactly the tickets tail..head-1. */
  lemma Quiescent(s: State)
    requires Reachable(s) && Shaped(s)
    requires forall t :: 0 <= t < |s.pcs| ==> s.pcs[t] == Idle
    ensures s.tail <= s.head <= s.tail + s.capacity && |s.sent| == s.head
    ensures forall k :: s.tail <= k < s.head ==> s.cell[Idx(s, k)] == Live(s.sent[k])
    ensures forall i :: 0 <= i < s.capacity ==>
      (s.cell[i].Live? <==> exists k :: s.tail <= k < s.head && Idx(s, k) == i)
  {
    Safety(s);
    forall k: nat ensures Pushed(s, k) <==> k < s.head {
      assert PushTicketOk(s, k);
    }
    forall k: nat ensures Popped(s, k) <==> k < s.tail {
      assert PopTicketOk(s, k);
    }
    assert Popped(s, s.head) ==> Pushed(s, s.head);
    if s.head > s.capacity {
      PreviousLap(s, s.head - 1);
      assert Pushed(s, s.head - 1) ==> Popped(s, s.head - 1 - s.capacity);
    }
    forall i | 0 <= i < s.capacity
      ensures s.cell[i].Live? <==> exists k :: s.tail <= k < s.head && Idx(s, k) == i
      ensures forall k :: s.tail <= k < s.head && Idx(s, k) == i ==> s.cell[i] == Live(s.sent[k])
    {
      assert SlotOk(s, i);
      var n := TicketAt(s, i, s.turn[i]);
      TicketAtInverse(s, i, s.turn[i]);
      assert Pushed(s, n) <==> s.turn[i] % 2 == 1;
      assert !Popped(s, n);
      forall k | s.tail <= k < s.head && Idx(s, k) == i ensures k == n && s.turn[i] % 2 == 1 {
        assert Pushed(s, k) && !Popped(s, k);
        SameTicket(s, k, n);
      }
    }
  }

  lemma PreviousLap(s: State, k: nat)
    requires s.capacity > 0 && k >= s.capacity
    ensures Idx(s, k - s.capacity) == Idx(s, k) && Lap(s, k - s.capacity) == Lap(s, k) - 1
  {
  }

  /**
   No deadlock: take the smallest ticket whose pop is unfinished. If its push and
   pop are both drawn, the thread that owes the unfinished half is not waiting
   in vain: its next step changes its state.
   */
  lemma NoDeadlock(s: State, k: nat)
    requires Reachable(s) && Shaped(s)
    requires k !in s.received && (forall j: nat :: j < k ==> j in s.received)
    requires k < s.head && k < s.tail
    ensures |s.pusher| == s.head && |s.popper| == s.tail
    ensures var t := if PushDone(s, k) then s.popper[k] else s.pusher[k];
      && t < |s.pcs|
      && (if PushDone(s, k) then Popping(s.pcs[t], k) else Pushing(s.pcs[t], k))
      && Advance(s, t).pcs[t] != s.pcs[t]
  {
    Safety(s);
    assert PushTicketOk(s, k) && PopTicketOk(s, k);
    if Pushed(s, k) {
      var t := s.popper[k];
      if s.pcs[t].PopMove? { MySlot(s, t, k); }
    } else if k >= s.capacity {
      PreviousLap(s, k);
      assert k - s.capacity in s.received && PopTicketOk(s, k - s.capacity);
    } else {
      TicketOf(s, k);
      SmallLap(s, k);
    }
  }

  lemma SmallLap(s: State, k: nat)
    requires s.capacity > 0
    ensures Lap(s, k) == 0 <==> k < s.capacity
  {
  }

  /** When a try operation wins its ticket, the turn is still the value it tested. */
  lemma TryTurnStable(s: State, t: Tid)
    requires Reachable(s) && Shaped(s) && t < |s.pcs|
    ensures s.pcs[t].TryPushCas? && s.head == s.pcs[t].k ==> s.turn[Idx(s, s.pcs[t].k)] == 2 * Lap(s, s.pcs[t].k)
    ensures s.pcs[t].TryPopCas? && s.tail == s.pcs[t].k ==> s.turn[Idx(s, s.pcs[t].k)] == 2 * Lap(s, s.pcs[t].k) + 1
  {
    Safety(s);
    assert ThreadOk(s, t);
    if s.pcs[t].TryPushCas? { assert PushTicketOk(s, s.pcs[t].k); }
    if s.pcs[t].TryPopCas? { assert PopTicketOk(s, s.pcs[t].k); }
  }

  lemma StepFrame(s: State, u: Tid, s': State, t: Tid)
    requires Shaped(s) && Step(s, u, s')
    ensures s'.capacity == s.capacity && |s'.pcs| == |s.pcs|
    ensures t != u && t < |s.pcs| ==> s'.pcs[t] == s.pcs[t]
  {
  }

  lemma StepSaw(s: State, u: Tid, s': State)
    requires Shaped(s) && Step(s, u, s') && u < |s'.pcs| && (s'.pcs[u].TryPushReload? || s'.pcs[u].TryPopReload?)
    ensures s.turn[Idx(s, s'.pcs[u].k)] == s'.pcs[u].saw
    ensures s.pcs[u] == if s'.pcs[u].TryPushReload? then TryPushTurn(s'.pcs[u].v, s'.pcs[u].k) else TryPopTurn(s'.pcs[u].k)
  {
  }

  /** The turn a try operation remembers was read from the slot at an earlier moment of the same call. */
  lemma {:induction false} SawEarlier(run: seq<State>, who: seq<Tid>, i: nat, t: Tid) returns (j: nat)
    requires IsRun(run, who) && i < |run|
    requires t < |run[i].pcs| && (run[i].pcs[t].TryPushReload? || run[i].pcs[t].TryPopReload?)
    ensures j < i && run[j].capacity == run[i].capacity && Shaped(run[j]) && t < |run[j].pcs| && who[j] == t
    ensures run[j].turn[Idx(run[j], run[i].pcs[t].k)] == run[i].pcs[t].saw
    ensures run[j].pcs[t] ==
      if run[i].pcs[t].TryPushReload? then TryPushTurn(run[i].pcs[t].v, run[i].pcs[t].k) else TryPopTurn(run[i].pcs[t].k)
    ensures forall m :: j < m <= i ==> t < |run[m].pcs| && run[m].pcs[t] == run[i].pcs[t]
  {
    assert i > 0;
    assert StepOk(run, who, i - 1);
    StepFrame(run[i-1], who[i-1], run[i], t);
    if who[i-1] == t {
      StepSaw(run[i-1], t, run[i]);
      j := i - 1;
    } else {
      j := SawEarlier(run, who, i - 1, t);
    }
  }

  /** Inside `try_emplace`, without a ticket. */
  predicate TryingPush(p: Pc) {
    p.TryPushLoad? || p.TryPushTurn? || p.TryPushCas? || p.TryPushReload?
  }

  /** Inside `try_pop`, without a ticket. */
  predicate TryingPop(p: Pc) {
    p.TryPopLoad? || p.TryPopTurn? || p.TryPopCas? || p.TryPopReload?
  }

  /**
   However `try_emplace` comes to return false, it is justified: at some moment during the call the pop of
   ticket head - capacity was unfinished, so the queue was full.
   */
  lemma TryPushFalse(run: seq<State>, who: seq<Tid>, i: nat) returns (j: nat)
    requires IsRun(run, who) && i < |who|
    requires who[i] < |run[i].pcs| && TryingPush(run[i].pcs[who[i]])
    requires who[i] < |run[i+1].pcs| && run[i+1].pcs[who[i]].Idle?
    ensures j < i && Shaped(run[j])
    ensures run[i].head >= run[j].capacity && run[i].head - run[j].capacity !in run[j].received
    ensures forall m :: j <= m <= i ==> who[i] < |run[m].pcs| && !run[m].pcs[who[i]].Idle?
  {
    var s, t := run[i], who[i];
    assert StepOk(run, who, i);
    RunInv(run, who, i);
    assert ThreadOk(s, t);
    j := SawEarlier(run, who, i, t);
    var k, p := s.head, run[j];
    assert p.turn[Idx(p, k)] < 2 * Lap(p, k);
    SmallLap(p, k);
    RunInv(run, who, j);
    PreviousLap(p, k);
    assert PopTicketOk(p, k - p.capacity);
  }

  /** However `try_pop` comes to return false: at some moment during the call the push of ticket tail was unfinished. */
  lemma TryPopFalse(run: seq<State>, who: seq<Tid>, i: nat) returns (j: nat)
    requires IsRun(run, who) && i < |who|
    requires who[i] < |run[i].pcs| && TryingPop(run[i].pcs[who[i]])
    requires who[i] < |run[i+1].pcs| && run[i+1].pcs[who[i]].Idle?
    ensures j < i && Shaped(run[j]) && !PushDone(run[j], run[i].tail)
    ensures forall m :: j <= m <= i ==> who[i] < |run[m].pcs| && !run[m].pcs[who[i]].Idle?
  {
    assert StepOk(run, who, i);
    RunInv(run, who, i);
    assert ThreadOk(run[i], who[i]);
    j := SawEarlier(run, who, i, who[i]);
    RunInv(run, who, j);
    assert PushTicketOk(run[j], run[i].tail);
  }

  // -------------------------------------------------------------- every call

  /** The argument of the push that a thread is inside of. */
  function ArgOf(p: Pc): Option<Value> {
    match p
    case PushClaim(v) => Some(v)
    case PushWait(v, _) => Some(v)
    case PushConstruct(v, _) => Some(v)
    case PushPublish(v, _) => Some(v)
    case TryPushLoad(v) => Some(v)
    case TryPushTurn(v, _) => Some(v)
    case TryPushCas(v, _) => Some(v)
    case TryPushReload(v, _, _) => Some(v)
    case _ => None
  }

  /** Inside `pop` or `try_pop`. */
  predicate InPop(p: Pc) {
    p.PopClaim? || p.PopWait? || p.PopMove? || p.PopDestroy? || p.PopPublish? || TryingPop(p)
  }

  /**
   A push keeps its argument, sends nothing but it, and ends with its ticket
   published under that value, unless it is a try that has drawn none.
   */
  lemma PushesItsArgument(s: State, t: Tid, s': State)
    requires Reachable(s) && Shaped(s) && Shaped(s') && Step(s, t, s') && ArgOf(s.pcs[t]).Some?
    ensures var p, p' := s.pcs[t], s'.pcs[t];
      && (s'.sent == s.sent || (s'.sent == s.sent + [ArgOf(p).value] && Pushing(p', |s.sent|)))
      && (!p'.Idle? ==> ArgOf(p') == ArgOf(p) && (TryingPush(p') ==> TryingPush(p)))
      && (p'.Idle? && !TryingPush(p) ==>
            p.PushPublish? && p.k < |s.sent| && s.sent[p.k] == p.v && s'.turn[Idx(s, p.k)] == 2 * Lap(s, p.k) + 1)
  {
    Safety(s);
    assert ThreadOk(s, t);
  }

  /** A pop ends with the value of its ticket received, unless it is a try that has drawn none. */
  lemma PopEnds(s: State, t: Tid, s': State)
    requires Reachable(s) && Shaped(s) && Step(s, t, s') && InPop(s.pcs[t])
    ensures var p, p' := s.pcs[t], s'.pcs[t];
      && s'.sent == s.sent
      && (!p'.Idle? ==> InPop(p') && (TryingPop(p') ==> TryingPop(p)) && s'.received == s.received)
      && (p'.Idle? && !TryingPop(p) ==> p.PopPublish? && p.k < |s.sent| && s'.received == s.received[p.k := s.sent[p.k]])
      && (p'.Idle? && TryingPop(p) ==> s'.received == s.received && s'.tail == s.tail)
  {
    Safety(s);
    assert ThreadOk(s, t);
  }

  /** The ticket that the next push would draw has a free slot. */
  ghost predicate Room(s: State) {
    s.head < s.capacity || s.head - s.capacity in s.received
  }

  lemma RoomTest(s: State)
    requires Inv(s)
    ensures s.turn[Idx(s, s.head)] == 2 * Lap(s, s.head) <==> Room(s)
  {
    assert PushTicketOk(s, s.head);
    SmallLap(s, s.head);
    if s.head >= s.capacity {
      PreviousLap(s, s.head);
      assert PopTicketOk(s, s.head - s.capacity);
    }
  }

  /** Undisturbed, `try_emplace` decides in three steps: it draws the next ticket for its argument exactly when there is room. */
  lemma TryPushAlone(s: State, t: Tid)
    requires Reachable(s) && Shaped(s) && t < |s.pcs| && s.pcs[t].TryPushLoad?
    ensures var s' := Advance(Advance(Advance(s, t), t), t);
      if Room(s) then s'.pcs[t] == PushConstruct(s.pcs[t].v, s.head) && s'.head == s.head + 1 && s'.sent == s.sent + [s.pcs[t].v]
      else s' == s.(pcs := s.pcs[t := Idle])
  {
    Safety(s);
    RoomTest(s);
    var v, k := s.pcs[t].v, s.head;
    var s1 := Advance(s, t);
    var p2 := if Room(s) then TryPushCas(v, k) else TryPushReload(v, k, s.turn[Idx(s, k)]);
    var s2 := s.(pcs := s.pcs[t := p2]);
    assert Advance(s1, t) == s2 by { assert s1.pcs[t := p2] == s2.pcs; }
    assert s2.pcs[t := Idle] == s.pcs[t := Idle];
  }

  /** Undisturbed, `try_pop` decides in three steps: it draws the next ticket exactly when its push is done. */
  lemma TryPopAlone(s: State, t: Tid)
    requires Reachable(s) && Shaped(s) && t < |s.pcs| && s.pcs[t].TryPopLoad?
    ensures var s' := Advance(Advance(Advance(s, t), t), t);
      if PushDone(s, s.tail) then s'.pcs[t] == PopMove(s.tail) && s'.tail == s.tail + 1
      else s' == s.(pcs := s.pcs[t := Idle])
  {
    Safety(s);
    var k := s.tail;
    assert PushTicketOk(s, k) && PopTicketOk(s, k);
    var s1 := Advance(s, t);
    var p2 := if PushDone(s, k) then TryPopCas(k) else TryPopReload(k, s.turn[Idx(s, k)]);
    var s2 := s.(pcs := s.pcs[t := p2]);
    assert Advance(s1, t) == s2 by { assert s1.pcs[t := p2] == s2.pcs; }
    assert s2.pcs[t := Idle] == s.pcs[t := Idle];
  }
}
