/**
 The single-producer single-consumer ring (rigtorp::SPSCQueue). Each end keeps a
 possibly stale copy of the other end's index. One step is one access to an
 index the other end also accesses, or to a slot.

 `sent`, `popped`, `readSeen` and `writeSeen` are history variables: the values
 pushed so far, how many were popped, and how many pops and pushes had happened
 when each cached index was loaded.
 */
module Spsc {
  import opened Common
  import opened Modular

  type Value(==, !new)

  /** What the last call of an end returned. */
  datatype Outcome = Nothing | Pushed | Refused | Empty | Front(v: Value) | Size(n: int)

  datatype Producer =
    | PIdle(out: Outcome)
    | EmplaceCall(v: Value, spin: bool)
    | LoadRead(v: Value, next: nat, spin: bool)
    | Construct(v: Value, next: nat)
    | StoreWrite(v: Value, next: nat)
    | PSizeWrite
    | PSizeRead(w: nat)

  datatype Consumer =
    | CIdle(out: Outcome, ready: bool)
    | FrontCall
    | LoadWrite
    | ReadFront
    | Destroy
    | StoreRead(next: nat)
    | CSizeWrite(ready: bool)
    | CSizeRead(w: nat, ready: bool, len: int)

  datatype State = State(
    size: nat,             // capacity_: one more than capacity()
    writeIdx: nat,
    readIdx: nat,
    readCache: nat,        // readIdxCache_, used by the producer only
    writeCache: nat,       // writeIdxCache_, used by the consumer only
    slots: seq<Option<Value>>,
    prod: Producer,
    cons: Consumer,
    sent: seq<Value>,
    popped: nat,
    readSeen: nat,
    writeSeen: nat)

  // ---------------------------------------------------------------- steps

  function Advance(i: nat, size: nat): nat {
    if i + 1 == size then 0 else i + 1
  }

  /** `emplace` (spin) or `try_emplace` up to its first shared access. */
  ghost function Emplace(s: State, v: Value, spin: bool): State {
    var next := Advance(s.writeIdx, s.size);
    s.(prod := if next == s.readCache then LoadRead(v, next, spin) else Construct(v, next))
  }

  /** The difference of the two indices, as `size()` computes it. */
  function Diff(w: int, r: int, size: nat): int {
    if w - r < 0 then w - r + size else w - r
  }

  ghost function Produce(s: State): State
    requires s.writeIdx < |s.slots|
  {
    match s.prod
    case PIdle(_) => s
    case EmplaceCall(v, spin) => Emplace(s, v, spin)
    case LoadRead(v, next, spin) =>
      var s1 := s.(readCache := s.readIdx, readSeen := s.popped);
      if next != s.readIdx then s1.(prod := Construct(v, next))
      else if spin then s1
      else s1.(prod := PIdle(Refused))
    case Construct(v, next) =>
      s.(slots := s.slots[s.writeIdx := Some(v)], prod := StoreWrite(v, next))
    case StoreWrite(v, next) =>
      s.(writeIdx := next, prod := PIdle(Pushed), sent := s.sent + [v])
    case PSizeWrite => s.(prod := PSizeRead(s.writeIdx))
    case PSizeRead(w) => s.(prod := PIdle(Size(Diff(w, s.readIdx, s.size))))
  }

  /** `front()` up to its first shared access. */
  ghost function StartFront(s: State): State {
    s.(cons := if s.readIdx == s.writeCache then LoadWrite else ReadFront)
  }

  ghost function Consume(s: State): State
    requires s.readIdx < |s.slots|
  {
    match s.cons
    case CIdle(_, _) => s
    case FrontCall => StartFront(s)
    case LoadWrite =>
      var s1 := s.(writeCache := s.writeIdx, writeSeen := |s.sent|);
      s1.(cons := if s.writeIdx == s.readIdx then CIdle(Empty, false) else ReadFront)
    case ReadFront =>
      if s.slots[s.readIdx].Some? then s.(cons := CIdle(Front(s.slots[s.readIdx].value), true)) else s
    case Destroy =>
      s.(slots := s.slots[s.readIdx := None], cons := StoreRead(Advance(s.readIdx, s.size)))
    case StoreRead(next) =>
      s.(readIdx := next, cons := CIdle(Nothing, false), popped := s.popped + 1)
    case CSizeWrite(ready) => s.(cons := CSizeRead(s.writeIdx, ready, |s.sent| - s.popped))
    case CSizeRead(w, ready, _) => s.(cons := CIdle(Size(Diff(w, s.readIdx, s.size)), ready))
  }

  /**
   A step of an end, or the call of an operation by an idle end; a call forgets the
   outcome of the one before. `pop()` may be called only after `front()` has
   returned an element.
   */
  ghost predicate Next(s: State, s': State)
    requires s.writeIdx < |s.slots| && s.readIdx < |s.slots|
  {
    || (s.prod.PIdle? && exists v, spin :: s' == s.(prod := EmplaceCall(v, spin)))
    || (s.prod.PIdle? && s' == s.(prod := PSizeWrite))
    || s' == Produce(s)
    || (s.cons.CIdle? && s' == s.(cons := FrontCall))
    || (s.cons.CIdle? && s.cons.ready && s' == s.(cons := Destroy))
    || (s.cons.CIdle? && s' == s.(cons := CSizeWrite(s.cons.ready)))
    || s' == Consume(s)
  }

  ghost predicate Init(s: State) {
    && s.size >= 2 && |s.slots| == s.size
    && s.writeIdx == s.readIdx == s.readCache == s.writeCache == 0
    && (forall i :: 0 <= i < s.size ==> s.slots[i] == None)
    && s.prod == PIdle(Nothing) && s.cons == CIdle(Nothing, false)
    && s.sent == [] && s.popped == s.readSeen == s.writeSeen == 0
  }

  // ------------------------------------------------------------ invariant

  /** The abstract queue: pushed and not popped. */
  ghost function Queue(s: State): seq<Value>
    requires s.popped <= |s.sent|
  {
    s.sent[s.popped..]
  }

  /** The object of push number k is in its slot. */
  ghost predicate Holds(slots: seq<Option<Value>>, size: nat, k: nat, v: Value) {
    size > 0 && |slots| == size && slots[Mod(k, size)] == Some(v)
  }

  ghost predicate IndicesOk(s: State) {
    && s.size >= 2 && |s.slots| == s.size
    && s.readSeen <= s.popped <= s.writeSeen <= |s.sent| < s.readSeen + s.size
    && s.writeIdx == Mod(|s.sent|, s.size) && s.readIdx == Mod(s.popped, s.size)
    && s.readCache == Mod(s.readSeen, s.size) && s.writeCache == Mod(s.writeSeen, s.size)
  }

  /** The object constructed but not yet published. */
  function Pending(p: Producer): Option<Value> {
    if p.StoreWrite? then Some(p.v) else None
  }

  /** Slots from the oldest unread push on hold their values; the slot to write next is free. */
  ghost predicate Stored(slots: seq<Option<Value>>, size: nat, sent: seq<Value>, popped: nat, writeIdx: nat, readIdx: nat,
                         pending: Option<Value>, destroyed: bool)
  {
    && |slots| == size && writeIdx < size && readIdx < size
    && (forall k :: popped <= k < |sent| && !(k == popped && destroyed) ==> Holds(slots, size, k, sent[k]))
    && (destroyed ==> slots[readIdx] == None)
    && slots[writeIdx] == pending
    && (forall i :: 0 <= i < size && slots[i].Some? && i != writeIdx ==>
          exists k :: popped <= k < |sent| && Mod(k, size) == i)
  }

  ghost predicate SlotsOk(s: State) {
    Stored(s.slots, s.size, s.sent, s.popped, s.writeIdx, s.readIdx, Pending(s.prod), s.cons.StoreRead?)
  }

  ghost predicate EndsOk(s: State)
    requires IndicesOk(s)
  {
    && (match s.prod
        case LoadRead(_, next, _) => next == Mod(|s.sent| + 1, s.size)
        case Construct(_, next) => next == Mod(|s.sent| + 1, s.size) && |s.sent| + 1 < s.readSeen + s.size
        case StoreWrite(_, next) => next == Mod(|s.sent| + 1, s.size) && |s.sent| + 1 < s.readSeen + s.size
        case PSizeRead(w) => w == s.writeIdx
        case _ => true)
    && (match s.cons
        case CIdle(_, ready) => ready ==> s.popped < s.writeSeen
        case ReadFront => s.popped < s.writeSeen
        case Destroy => s.popped < s.writeSeen
        case StoreRead(next) => s.popped < s.writeSeen && next == Mod(s.popped + 1, s.size)
        case CSizeWrite(ready) => ready ==> s.popped < s.writeSeen
        case CSizeRead(w, ready, len) =>
          && (ready ==> s.popped < s.writeSeen)
          && 0 <= len < s.size && s.popped + len <= |s.sent| && w == Mod(s.popped + len, s.size)
        case _ => true)
  }

  ghost predicate Inv(s: State) {
    IndicesOk(s) && SlotsOk(s) && EndsOk(s)
  }

  // ----------------------------------------------------------- arithmetic

  lemma {:induction false} AdvanceIs(k: nat, size: nat)
    requires size >= 2
    ensures Advance(Mod(k, size), size) == Mod(k + 1, size)
  {
    if k >= size { AdvanceIs(k - size, size); }
  }

  /** Equal positions less than a lap apart are the same count. */
  lemma SamePos(a: nat, b: nat, size: nat)
    requires size > 0 && a <= b < a + size
    ensures Mod(a, size) == Mod(b, size) <==> a == b
  {
    if a < b { ModDistinct(a, b, size); }
  }

  /** The producer's test tells whether a slot is free, seen from count `seen`. */
  lemma FullTest(s: State, seen: nat)
    requires IndicesOk(s) && s.readSeen <= seen <= s.popped
    ensures Mod(|s.sent| + 1, s.size) == Mod(seen, s.size) <==> |s.sent| + 1 == seen + s.size
  {
    if |s.sent| + 1 < seen + s.size {
      SamePos(seen, |s.sent| + 1, s.size);
    }
  }

  lemma {:induction false} DiffIs(r: nat, w: nat, size: nat)
    requires size > 0 && r <= w < r + size
    ensures Diff(Mod(w, size), Mod(r, size), size) == w - r
  {
    if r >= size { DiffIs(r - size, w - size, size); }
  }

  // ---------------------------------------------------- every step keeps Inv

  lemma EmplaceKeeps(s: State, v: Value, spin: bool)
    requires Inv(s) && s.prod.EmplaceCall?
    ensures Inv(Emplace(s, v, spin))
  {
    AdvanceIs(|s.sent|, s.size);
    FullTest(s, s.readSeen);
  }

  lemma LoadReadKeeps(s: State)
    requires Inv(s) && s.prod.LoadRead?
    ensures Inv(Produce(s))
  {
    FullTest(s, s.popped);
  }

  /** The slot about to be written holds no unread element. */
  lemma ConstructStored(slots: seq<Option<Value>>, size: nat, sent: seq<Value>, popped: nat, w: nat, readIdx: nat,
                        v: Value, destroyed: bool)
    requires Stored(slots, size, sent, popped, w, readIdx, None, destroyed)
    requires size > 0 && popped <= |sent| < popped + size && w == Mod(|sent|, size) && readIdx == Mod(popped, size)
    requires destroyed ==> popped < |sent|
    ensures Stored(slots[w := Some(v)], size, sent, popped, w, readIdx, Some(v), destroyed)
  {
    var slots' := slots[w := Some(v)];
    SamePos(popped, |sent|, size);
    forall k | popped <= k < |sent| && !(k == popped && destroyed) ensures Holds(slots', size, k, sent[k]) {
      assert Holds(slots, size, k, sent[k]);
      SamePos(k, |sent|, size);
    }
    forall i | 0 <= i < size && slots'[i].Some? && i != w ensures exists k :: popped <= k < |sent| && Mod(k, size) == i {
      assert slots[i].Some?;
    }
  }

  lemma ConstructKeeps(s: State)
    requires Inv(s) && s.prod.Construct?
    ensures Inv(Produce(s))
  {
    ConstructStored(s.slots, s.size, s.sent, s.popped, s.writeIdx, s.readIdx, s.prod.v, s.cons.StoreRead?);
  }

  /** Publishing: the value joins the queue, and the slot after it is free. */
  lemma PublishStored(slots: seq<Option<Value>>, size: nat, sent: seq<Value>, popped: nat, w: nat, next: nat, readIdx: nat,
                      v: Value, destroyed: bool)
    requires Stored(slots, size, sent, popped, w, readIdx, Some(v), destroyed)
    requires size >= 2 && popped <= |sent| && |sent| + 1 < popped + size && w == Mod(|sent|, size) && next == Mod(|sent| + 1, size)
    requires destroyed ==> popped < |sent|
    ensures Stored(slots, size, sent + [v], popped, next, readIdx, None, destroyed)
  {
    var n := |sent|;
    forall k | popped <= k < n + 1 && !(k == popped && destroyed) ensures Holds(slots, size, k, (sent + [v])[k]) {
      if k < n { assert Holds(slots, size, k, sent[k]); }
    }
    forall i | 0 <= i < size && slots[i].Some? && i != next
      ensures exists k :: popped <= k < n + 1 && Mod(k, size) == i
    {
      if i == w { assert Mod(n, size) == i; } else {
        var k :| popped <= k < n && Mod(k, size) == i;
        assert popped <= k < n + 1 && Mod(k, size) == i;
      }
    }
    NextSlotFree(slots, size, sent, popped, w, next, readIdx, v, destroyed);
  }

  lemma NextSlotFree(slots: seq<Option<Value>>, size: nat, sent: seq<Value>, popped: nat, w: nat, next: nat, readIdx: nat,
                     v: Value, destroyed: bool)
    requires Stored(slots, size, sent, popped, w, readIdx, Some(v), destroyed)
    requires size >= 2 && popped <= |sent| && |sent| + 1 < popped + size && w == Mod(|sent|, size) && next == Mod(|sent| + 1, size)
    ensures next < size && slots[next] == None
  {
    SamePos(|sent|, |sent| + 1, size);
    if slots[next].Some? {
      var k :| popped <= k < |sent| && Mod(k, size) == next;
      SamePos(k, |sent| + 1, size);
    }
  }

  lemma StoreWriteKeeps(s: State)
    requires Inv(s) && s.prod.StoreWrite?
    ensures Inv(Produce(s))
  {
    PublishStored(s.slots, s.size, s.sent, s.popped, s.writeIdx, s.prod.next, s.readIdx, s.prod.v, s.cons.StoreRead?);
  }

  lemma ConsumeLoadKeeps(s: State)
    requires Inv(s) && (s.cons.LoadWrite? || s.cons.ReadFront?)
    ensures Inv(Consume(s))
  {
    SamePos(s.popped, |s.sent|, s.size);
  }

  /** Destroying the first element leaves the others. */
  lemma DestroyStored(slots: seq<Option<Value>>, size: nat, sent: seq<Value>, popped: nat, writeIdx: nat, readIdx: nat,
                      pending: Option<Value>)
    requires Stored(slots, size, sent, popped, writeIdx, readIdx, pending, false)
    requires size > 0 && popped < |sent| < popped + size && readIdx == Mod(popped, size) && writeIdx == Mod(|sent|, size)
    ensures Stored(slots[readIdx := None], size, sent, popped, writeIdx, readIdx, pending, true)
  {
    var slots' := slots[readIdx := None];
    SamePos(popped, |sent|, size);
    forall k | popped < k < |sent| ensures Holds(slots', size, k, sent[k]) {
      assert Holds(slots, size, k, sent[k]);
      SamePos(popped, k, size);
    }
    forall i | 0 <= i < size && slots'[i].Some? && i != writeIdx
      ensures exists k :: popped <= k < |sent| && Mod(k, size) == i
    {
      assert slots[i].Some?;
    }
  }

  lemma DestroyKeeps(s: State)
    requires Inv(s) && s.cons.Destroy?
    ensures Inv(Consume(s))
  {
    AdvanceIs(s.popped, s.size);
    DestroyStored(s.slots, s.size, s.sent, s.popped, s.writeIdx, s.readIdx, Pending(s.prod));
  }

  lemma StoreReadKeeps(s: State)
    requires Inv(s) && s.cons.StoreRead?
    ensures Inv(Consume(s))
  {
    var s' := Consume(s);
    forall i | 0 <= i < s.size && s.slots[i].Some? && i != s.writeIdx
      ensures exists k :: s'.popped <= k < |s.sent| && Mod(k, s.size) == i
    {
      var k :| s.popped <= k < |s.sent| && Mod(k, s.size) == i;
      assert k != s.popped;
      assert s'.popped <= k < |s.sent| && Mod(k, s.size) == i;
    }
    forall k | s'.popped <= k < |s.sent| ensures Holds(s'.slots, s.size, k, s.sent[k]) {
      assert Holds(s.slots, s.size, k, s.sent[k]);
    }
  }

  lemma ProduceKeeps(s: State)
    requires Inv(s)
    ensures Inv(Produce(s))
  {
    match s.prod
    case PIdle(_) =>
    case EmplaceCall(v, spin) => EmplaceKeeps(s, v, spin);
    case LoadRead(_, _, _) => LoadReadKeeps(s);
    case Construct(_, _) => ConstructKeeps(s);
    case StoreWrite(_, _) => StoreWriteKeeps(s);
    case PSizeWrite =>
    case PSizeRead(_) =>
  }

  lemma ConsumeKeeps(s: State)
    requires Inv(s)
    ensures Inv(Consume(s))
  {
    match s.cons
    case CIdle(_, _) =>
    case FrontCall => StartFrontKeeps(s);
    case LoadWrite => ConsumeLoadKeeps(s);
    case ReadFront => ConsumeLoadKeeps(s);
    case Destroy => DestroyKeeps(s);
    case StoreRead(_) => StoreReadKeeps(s);
    case CSizeWrite(_) =>
    case CSizeRead(_, _, _) =>
  }

  lemma StartFrontKeeps(s: State)
    requires Inv(s) && s.cons.FrontCall?
    ensures Inv(StartFront(s))
  {
    SamePos(s.popped, s.writeSeen, s.size);
  }

  lemma ProducerCallKeeps(s: State)
    requires Inv(s)
    ensures s.prod.PIdle? ==> Inv(s.(prod := PSizeWrite)) && forall v, spin :: Inv(s.(prod := EmplaceCall(v, spin)))
  {
  }

  lemma ConsumerCallKeeps(s: State)
    requires Inv(s)
    ensures s.cons.CIdle? ==> Inv(s.(cons := CSizeWrite(s.cons.ready))) && Inv(s.(cons := FrontCall))
    ensures s.cons.CIdle? && s.cons.ready ==> Inv(s.(cons := Destroy))
  {
  }

  lemma NextKeeps(s: State, s': State)
    requires Inv(s) && Next(s, s')
    ensures Inv(s')
  {
    if s' == Produce(s) {
      ProduceKeeps(s);
    } else if s' == Consume(s) {
      ConsumeKeeps(s);
    } else {
      ProducerCallKeeps(s);
      ConsumerCallKeeps(s);
    }
  }

  // ------------------------------------------------------------- every run

  ghost predicate IsRun(run: seq<State>) {
    && run != [] && Init(run[0])
    && forall i :: 0 <= i < |run| - 1 ==> StepOk(run, i)
  }

  ghost predicate StepOk(run: seq<State>, i: nat)
    requires i < |run| - 1
  {
    run[i].writeIdx < |run[i].slots| && run[i].readIdx < |run[i].slots| && Next(run[i], run[i+1])
  }

  ghost predicate Reachable(s: State) {
    exists run :: IsRun(run) && run[|run|-1] == s
  }

  lemma InitInv(s: State)
    requires Init(s)
    ensures Inv(s)
  {
  }

  lemma {:induction false} RunInv(run: seq<State>, i: nat)
    requires IsRun(run) && i < |run|
    ensures Inv(run[i])
  {
    if i == 0 {
      InitInv(run[0]);
    } else {
      RunInv(run, i - 1);
      assert StepOk(run, i - 1);
      NextKeeps(run[i-1], run[i]);
    }
  }

  lemma Safety(s: State)
    requires Reachable(s)
    ensures Inv(s)
  {
    var run :| IsRun(run) && run[|run|-1] == s;
    RunInv(run, |run| - 1);
  }

  // ------------------------------------------------------------- what it means

  /** The counts alone: never more than size - 1 elements, and room or an element where a store needs it. */
  lemma Counts(s: State)
    requires Reachable(s)
    ensures s.popped <= |s.sent| < s.popped + s.size
    ensures s.prod.StoreWrite? ==> |s.sent| + 1 < s.popped + s.size
    ensures s.cons.StoreRead? ==> s.popped < |s.sent|
  {
    Safety(s);
  }

  lemma ReachNext(s: State, s': State)
    requires Reachable(s) && s.writeIdx < |s.slots| && s.readIdx < |s.slots| && Next(s, s')
    ensures Reachable(s')
  {
    var run :| IsRun(run) && run[|run|-1] == s;
    var longer := run + [s'];
    forall i | 0 <= i < |longer| - 1 ensures StepOk(longer, i) {
      if i < |run| - 1 { assert StepOk(run, i); }
    }
    assert IsRun(longer) && longer[|longer|-1] == s';
  }

  lemma CountsStep(s: State, s': State)
    requires s.writeIdx < |s.slots| && s.readIdx < |s.slots| && Next(s, s')
    ensures s'.size == s.size
    ensures
      || (s'.sent == s.sent && s'.popped == s.popped)
      || (s.prod.StoreWrite? && s'.sent == s.sent + [s.prod.v] && s'.popped == s.popped)
      || (s.cons.StoreRead? && s'.sent == s.sent && s'.popped == s.popped + 1)
  {
  }

  /**
   Refinement: seen through `Queue`, every step either leaves the queue alone,
   appends the value being pushed while there is room, or removes the first
   element; and the queue never exceeds `capacity()`, which is size - 1.
   */
  lemma RefinesBoundedFifo(s: State, s': State)
    requires Reachable(s) && s.writeIdx < |s.slots| && s.readIdx < |s.slots| && Next(s, s')
    ensures s.popped <= |s.sent| && s'.popped <= |s'.sent| && |Queue(s')| <= s'.size - 1
    ensures
      || Queue(s') == Queue(s)
      || (s.prod.StoreWrite? && |Queue(s)| < s.size - 1 && Queue(s') == Queue(s) + [s.prod.v])
      || (s.cons.StoreRead? && Queue(s) != [] && Queue(s') == Queue(s)[1..])
  {
    Counts(s);
    ReachNext(s, s');
    Counts(s');
    CountsStep(s, s');
  }

  /** No unread slot is overwritten, and only live objects are read or destroyed. */
  lemma SlotSafety(s: State)
    requires Reachable(s)
    ensures s.writeIdx < |s.slots| && s.readIdx < |s.slots| && s.popped <= |s.sent|
    ensures s.prod.Construct? ==> s.slots[s.writeIdx] == None
    ensures s.cons.ReadFront? || s.cons.Destroy? ==> Queue(s) != [] && s.slots[s.readIdx] == Some(Queue(s)[0])
    ensures s.cons.Destroy? ==> s.writeIdx != s.readIdx
  {
    Safety(s);
    if s.cons.ReadFront? || s.cons.Destroy? {
      assert Holds(s.slots, s.size, s.popped, s.sent[s.popped]);
      SamePos(s.popped, |s.sent|, s.size);
    }
  }

  // ------------------------------------------------------------- every call

  /** The consumer is inside `front()`. */
  predicate InFront(c: Consumer) {
    c.FrontCall? || c.LoadWrite? || c.ReadFront?
  }

  /** The consumer is inside `pop()`. */
  predicate InPop(c: Consumer) {
    c.Destroy? || c.StoreRead?
  }

  /** The argument of the push that the producer is inside of. */
  function ArgOf(p: Producer): Option<Value> {
    match p
    case EmplaceCall(v, _) => Some(v)
    case LoadRead(v, _, _) => Some(v)
    case Construct(v, _) => Some(v)
    case StoreWrite(v, _) => Some(v)
    case _ => None
  }

  /** A blocking push that has not found room yet. */
  predicate Blocking(p: Producer) {
    (p.EmplaceCall? || p.LoadRead?) && p.spin
  }

  /** A consumer's call is left by its own steps only. */
  lemma ConsumerSteps(s: State, s': State)
    requires s.writeIdx < |s.slots| && s.readIdx < |s.slots| && Next(s, s') && !s.cons.CIdle?
    ensures s'.cons == s.cons || s' == Consume(s)
    ensures s'.cons == s.cons ==> s'.popped == s.popped
  {
  }

  lemma ProducerSteps(s: State, s': State)
    requires s.writeIdx < |s.slots| && s.readIdx < |s.slots| && Next(s, s') && !s.prod.PIdle?
    ensures s'.prod == s.prod || s' == Produce(s)
    ensures s'.prod == s.prod ==> s'.sent == s.sent
  {
  }

  /** One own step of `front()`: it stays inside the call or answers for the queue as it is. */
  lemma FrontStep(s: State)
    requires Inv(s) && InFront(s.cons)
    ensures Queue(Consume(s)) == Queue(s)
    ensures !InFront(Consume(s).cons) ==>
      Consume(s).cons == if Queue(s) == [] then CIdle(Empty, false) else CIdle(Front(Queue(s)[0]), true)
  {
    SamePos(s.popped, |s.sent|, s.size);
    SamePos(s.popped, s.writeSeen, s.size);
    if s.cons.ReadFront? { assert Holds(s.slots, s.size, s.popped, s.sent[s.popped]); }
  }

  /**
   However a call of `front()` ends, it answers null exactly when the queue is empty
   at that step, and otherwise gives the oldest element.
   */
  lemma EmptyMeansEmpty(s: State, s': State)
    requires Reachable(s) && s.writeIdx < |s.slots| && s.readIdx < |s.slots| && Next(s, s') && InFront(s.cons)
    ensures s.popped <= |s.sent| && s'.popped <= |s'.sent|
    ensures !InFront(s'.cons) ==> Queue(s') == Queue(s)
    ensures !InFront(s'.cons) ==>
      s'.cons == if Queue(s) == [] then CIdle(Empty, false) else CIdle(Front(Queue(s)[0]), true)
  {
    Safety(s);
    ReachNext(s, s');
    Safety(s');
    ConsumerSteps(s, s');
    FrontStep(s);
  }

  /** However a call of `pop()` ends, it has removed the oldest element and nothing else; before that it removes nothing. */
  lemma PopRemovesFirst(s: State, s': State)
    requires Reachable(s) && s.writeIdx < |s.slots| && s.readIdx < |s.slots| && Next(s, s') && InPop(s.cons)
    ensures s.popped <= |s.sent| && s'.popped <= |s'.sent| && Queue(s) != []
    ensures InPop(s'.cons) ==> s'.popped == s.popped
    ensures !InPop(s'.cons) ==> s'.cons == CIdle(Nothing, false) && Queue(s') == Queue(s)[1..]
  {
    Safety(s);
    ReachNext(s, s');
    Safety(s');
    ConsumerSteps(s, s');
  }

  /** One own step of a push. */
  lemma PushStep(s: State)
    requires Reachable(s) && s.writeIdx < |s.slots| && ArgOf(s.prod).Some?
    ensures var s' := Produce(s);
      && s'.popped == s.popped
      && (ArgOf(s'.prod).Some? ==> ArgOf(s'.prod) == ArgOf(s.prod) && s'.sent == s.sent)
      && (ArgOf(s'.prod).None? ==>
            || (s'.prod == PIdle(Pushed) && |s.sent| + 1 < s.popped + s.size && s'.sent == s.sent + [ArgOf(s.prod).value])
            || (s'.prod == PIdle(Refused) && |s.sent| + 1 == s.popped + s.size && s'.sent == s.sent))
      && (Blocking(s.prod) ==> Blocking(s'.prod) || s'.prod.Construct?)
  {
    Safety(s);
    FullTest(s, s.popped);
  }

  /**
   However a push ends, it has appended its argument, or it was refused while the
   queue was full; a blocking one is never refused, and a push that goes on keeps
   its argument and has changed nothing.
   */
  lemma PushEnds(s: State, s': State)
    requires Reachable(s) && s.writeIdx < |s.slots| && s.readIdx < |s.slots| && Next(s, s') && ArgOf(s.prod).Some?
    ensures s.popped <= |s.sent| && s'.popped <= |s'.sent|
    ensures ArgOf(s'.prod).Some? ==> ArgOf(s'.prod) == ArgOf(s.prod) && s'.sent == s.sent
    ensures ArgOf(s'.prod).None? ==>
      || (s'.prod == PIdle(Pushed) && |Queue(s)| < s.size - 1 && Queue(s') == Queue(s) + [ArgOf(s.prod).value])
      || (s'.prod == PIdle(Refused) && |Queue(s)| == s.size - 1 && Queue(s') == Queue(s))
    ensures Blocking(s.prod) ==> Blocking(s'.prod) || s'.prod.Construct?
  {
    Counts(s);
    ReachNext(s, s');
    Counts(s');
    CountsStep(s, s');
    ProducerSteps(s, s');
    PushStep(s);
  }

  /** A false `try_emplace` coincides with a full queue at the load of the read index. */
  lemma RefusedMeansFull(s: State)
    requires Reachable(s) && s.prod.LoadRead? && !s.prod.spin && s.writeIdx < |s.slots|
    ensures s.popped <= |s.sent|
    ensures Produce(s).prod == PIdle(Refused) <==> |Queue(s)| == s.size - 1
  {
    Safety(s);
    FullTest(s, s.popped);
  }

  /** Own steps that a call still takes. */
  function StepsLeft(p: Producer): nat {
    match p
    case EmplaceCall(_, _) => 4
    case LoadRead(_, _, _) => 3
    case Construct(_, _) => 2
    case StoreWrite(_, _) => 1
    case PSizeWrite => 2
    case PSizeRead(_) => 1
    case PIdle(_) => 0
  }

  function ConsumerStepsLeft(c: Consumer): nat {
    match c
    case FrontCall => 3
    case LoadWrite => 2
    case ReadFront => 1
    case Destroy => 2
    case StoreRead(_) => 1
    case CSizeWrite(_) => 2
    case CSizeRead(_, _, _) => 1
    case CIdle(_, _) => 0
  }

  /** Wait-freedom: a push ends within four own steps, unless it blocks while the queue is full. */
  lemma PushFinishes(s: State)
    requires Reachable(s) && s.writeIdx < |s.slots| && !s.prod.PIdle?
    ensures s.popped <= |s.sent|
    ensures StepsLeft(Produce(s).prod) < StepsLeft(s.prod) || (Blocking(s.prod) && |Queue(s)| == s.size - 1)
  {
    Safety(s);
    FullTest(s, s.popped);
  }

  /** Wait-freedom: a call of the consumer ends within three own steps. */
  lemma ConsumerFinishes(s: State)
    requires Reachable(s) && s.readIdx < |s.slots| && !s.cons.CIdle?
    ensures ConsumerStepsLeft(Consume(s).cons) < ConsumerStepsLeft(s.cons)
  {
    Safety(s);
    if s.cons.ReadFront? { assert Holds(s.slots, s.size, s.popped, s.sent[s.popped]); }
  }

  /**
   `size()` called by the producer is the length at its second load; called by
   the consumer it is the length at its first load.
   */
  lemma SizeIsExact(s: State)
    requires Reachable(s) && s.writeIdx < |s.slots| && s.readIdx < |s.slots|
    ensures s.popped <= |s.sent|
    ensures s.prod.PSizeWrite? ==> Produce(s).prod.PSizeRead?
    ensures s.prod.PSizeRead? ==> Produce(s).prod == PIdle(Size(|Queue(s)|))
    ensures s.cons.CSizeWrite? ==> Consume(s).cons.CSizeRead? && Consume(s).cons.len == |Queue(s)|
    ensures s.cons.CSizeRead? ==> Consume(s).cons == CIdle(Size(s.cons.len), s.cons.ready)
  {
    Safety(s);
    DiffIs(s.popped, |s.sent|, s.size);
    if s.cons.CSizeRead? { DiffIs(s.popped, s.popped + s.cons.len, s.size); }
  }
}
