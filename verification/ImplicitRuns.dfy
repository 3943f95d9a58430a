/** What holds in every run of an implicit producer and its consumers. */
module ImplicitRuns {
  import opened Common
  import opened Modular
  import opened ImplicitIndex
  import opened ImplicitProducer
  import opened ImplicitConsumer

  // ------------------------------------------------------------- every run

  ghost predicate Next(s: State, s': State)
    requires Shaped(s)
  {
    || (s.prod == Ready && s' == Enqueue(s))
    || (exists ok, b :: (s.prod == Requisition && ok ==> Fresh(s, b)) && s' == Produce(s, ok, b))
    || (exists t, n: nat :: 0 <= t < |s.cons| && s.cons[t].Idle? && 0 < n && s.head + n <= s.tail && s' == Claim(s, t, n))
    || (exists t :: 0 <= t < |s.cons| && s' == Consume(s, t))
  }

  /** A new producer; allocating its first index may have failed (`cur` is then -1). */
  ghost predicate Init(s: State) {
    && Shaped(s)
    && s.tail == s.head == s.keyed == 0 && s.prod == Ready
    && s.hist == [] && s.holder == [] && s.done == {} && s.last == map[] && s.nulled == {} && s.freed == {}
    && (s.cur == -1 ==> s.headers == [])
    && (s.cur >= 0 ==>
          var hd := s.headers[0];
          && |s.headers| == 1 && s.nextCapacity == 2 * hd.ring.capacity
          && hd.ring.origin == 0 && hd.top == -1 && hd.tail == hd.ring.capacity - 1
          && Injective(hd.ring.index)
          && forall e :: 0 <= e < |s.entries| ==> s.entries[e].key == INVALID_BLOCK_BASE)
    && (forall t :: 0 <= t < |s.cons| ==> s.cons[t] == Idle)
  }

  ghost predicate IsRun(run: seq<State>) {
    && run != [] && Init(run[0])
    && forall i :: 0 <= i < |run| - 1 ==> StepOk(run, i)
  }

  ghost predicate StepOk(run: seq<State>, i: nat)
    requires i < |run| - 1
  {
    Shaped(run[i]) && Next(run[i], run[i+1])
  }

  ghost predicate Reachable(s: State) {
    exists run :: IsRun(run) && run[|run|-1] == s
  }

  lemma InitInv(s: State)
    requires Init(s)
    ensures Inv(s)
  {
    if s.cur >= 0 {
      ModNear(-1, s.headers[s.cur].ring.capacity);
      var r := s.headers[0].ring;
      forall b: nat | b < r.capacity ensures Unkeyed(s.entries, r, b) {}
    }
  }

  lemma NextKeeps(s: State, s': State)
    requires Inv(s) && Next(s, s')
    ensures Inv(s')
  {
    if s.prod == Ready && s' == Enqueue(s) {
      EnqueueKeeps(s);
    } else if ok, b :| (s.prod == Requisition && ok ==> Fresh(s, b)) && s' == Produce(s, ok, b) {
      ProduceKeeps(s, ok, b);
    } else if t, n: nat :| 0 <= t < |s.cons| && s.cons[t].Idle? && 0 < n && s.head + n <= s.tail && s' == Claim(s, t, n) {
      ClaimKeeps(s, t, n);
    } else {
      var t :| 0 <= t < |s.cons| && s' == Consume(s, t);
      ConsumeKeeps(s, t);
    }
  }

  lemma {:induction false} RunInv(run: seq<State>, i: nat)
    requires IsRun(run) && i < |run|
    ensures Inv(run[i])
  {
    if i == 0 {
      InitInv(run[0]);
    } else {
      RunInv(run, i - 1);
      assert StepOk(run, i - 1);
      NextKeeps(run[i-1], run[i]);
    }
  }

  lemma Safety(s: State)
    requires Reachable(s)
    ensures Inv(s)
  {
    var run :| IsRun(run) && run[|run|-1] == s;
    var last := |run| - 1;
    assert run[last] == s;
    RunInv(run, last);
  }

  // ------------------------------------------------------------- what it means

  /**
   The assertion in the lookup never fails: in every run of insertions, rewinds,
   doublings and out-of-order releases, the entry a consumer finds for a claimed,
   uncompleted index has that index's base as key and its block as value.
   */
  lemma LookupNeverFails(s: State, t: Tid)
    requires Reachable(s) && Shaped(s) && t < |s.cons| && s.cons[t].LoadValue?
    ensures var LoadValue(i, _, h, pos) := s.cons[t];
      && i / BLOCK_SIZE < |s.hist|
      && s.entries[s.headers[h].ring.index[pos]] == Entry(i - i % BLOCK_SIZE, To(s.hist[i / BLOCK_SIZE]))
  {
    Safety(s);
    LookupHolds(s, t);
  }

  /** The entry at the tail that a consumer measures from never has the invalid key. */
  lemma TailKeyValid(s: State, t: Tid)
    requires Reachable(s) && Shaped(s) && t < |s.cons| && s.cons[t].LoadKey?
    ensures s.entries[s.headers[s.cons[t].h].ring.index[s.cons[t].pos]].key == s.cons[t].k * BLOCK_SIZE
    ensures s.entries[s.headers[s.cons[t].h].ring.index[s.cons[t].pos]].key != INVALID_BLOCK_BASE
  {
    Safety(s);
    TailKeyIs(s, t);
  }

  /**
   A block is released exactly once per fill, by the consumer whose count brought
   it to BLOCK_SIZE: no other consumer is releasing it, it has not been released
   before, and all its elements are completed.
   */
  lemma ReleasedOnce(s: State, t: Tid, u: Tid, b: nat)
    requires Reachable(s) && t < |s.cons| && Releasing(s.cons[t], b)
    ensures b < |s.hist| && b !in s.freed
    ensures forall x: nat :: b * BLOCK_SIZE <= x < (b + 1) * BLOCK_SIZE ==> x in s.done
    ensures u < |s.cons| && Releasing(s.cons[u], b) ==> u == t
  {
    Safety(s);
    assert DutyOk(s.last, s.nulled, s.freed, s.cons[t], t);
    DoneInFull(s.done, b);
    if u < |s.cons| && Releasing(s.cons[u], b) { assert DutyOk(s.last, s.nulled, s.freed, s.cons[u], u); }
  }

  /** Among all splits of a block, the call that reports it empty is the one that completes its last element. */
  lemma ReportsEmptyIffLast(s: State, t: Tid)
    requires Reachable(s) && Shaped(s) && t < |s.cons| && s.cons[t].AddCount?
    ensures var c, s' := s.cons[t], Consume(s, t);
      && s'.cons[t].StoreNullEntry? <==>
           forall x: nat :: c.i - c.i % BLOCK_SIZE <= x < c.i - c.i % BLOCK_SIZE + BLOCK_SIZE ==> x in s'.done
    ensures !forall x: nat :: s.cons[t].i - s.cons[t].i % BLOCK_SIZE <= x < s.cons[t].i - s.cons[t].i % BLOCK_SIZE + BLOCK_SIZE ==> x in s.done
  {
    Safety(s);
    var AddCount(i, stop, h, pos, block) := s.cons[t];
    var s', b := Consume(s, t), i / BLOCK_SIZE;
    assert PlaceOk(s.headers, s.cur, s.hist, s.keyed, s.cons[t]);
    assert HoldOk(s.holder, s.done, s.cons[t], t) && s.holder[i] == t;
    LiveBlock(s, i);
    DoneInAdds(s.done, i, BlockEnd(i, stop), b);
    DoneInFull(s'.done, b);
  }

  /** No completed block is lost: it has been freed, or one consumer is about to free it. */
  lemma NoBlockLost(s: State, b: nat)
    requires Reachable(s) && b < |s.hist|
    requires forall x: nat :: b * BLOCK_SIZE <= x < (b + 1) * BLOCK_SIZE ==> x in s.done
    ensures b in s.freed || exists t :: 0 <= t < |s.cons| && Releasing(s.cons[t], b)
  {
    Safety(s);
    DoneInFull(s.done, b);
    if b !in s.freed { assert Releasing(s.cons[s.last[b]], b); }
  }

  /** After a doubling the slot for the new block is unused, as the code asserts. */
  lemma GrownSlotInvalid(s: State)
    requires Reachable(s) && Shaped(s) && s.prod == Grow
    ensures Shaped(Produce(s, true, 0)) && Produce(s, true, 0).cur >= 0
    ensures Produce(s, true, 0).entries[NewEntry(Produce(s, true, 0))].key == INVALID_BLOCK_BASE
  {
    Safety(s);
    GrowKeeps(s);
    NewSlotUnused(Produce(s, true, 0));
  }

  lemma NewSlotUnused(s: State)
    requires Inv(s) && s.prod == StoreKey && s.keyed == |s.hist| && |s.hist| - s.headers[s.cur].ring.origin < s.headers[s.cur].ring.capacity
    ensures s.entries[NewEntry(s)].key == INVALID_BLOCK_BASE
  {
    NewSlotIs(s);
    assert Unkeyed(s.entries, s.headers[s.cur].ring, |s.hist|);
  }

  // ------------------------------------------------------ the producer's answers

  /** Own steps that an enqueue still takes at most. */
  function StepsLeft(p: Producer): nat {
    match p
    case Ready => 0
    case LoadHead => 8
    case Probe => 7
    case Grow => 6
    case StoreKey => 5
    case StoreIndexTail => 4
    case Requisition => 3
    case Rewind => 2
    case StoreNull => 1
    case StoreValue(_) => 2
    case StoreTail => 1
  }

  /** An enqueue takes a bounded number of steps, whatever the consumers do. */
  lemma EnqueueFinishes(s: State, ok: bool, b: Block)
    requires Shaped(s) && s.prod != Ready
    ensures StepsLeft(Produce(s, ok, b).prod) < StepsLeft(s.prod)
  {
    match s.prod
    case LoadHead =>
    case Probe =>
    case Grow =>
    case StoreKey =>
    case StoreIndexTail =>
    case Requisition =>
    case Rewind =>
    case StoreNull =>
    case StoreValue(_) =>
    case StoreTail =>
  }

  /** The sub-queue has no room for another block within the limit on its size. */
  ghost predicate OverLimit(s: State) {
    s.limit.Some? && s.tail - s.head + BLOCK_SIZE > s.limit.value
  }

  /**
   An enqueue fails exactly when the loaded head leaves no room within the limit,
   when there is no index, or when an allocation fails; a failed requisition is
   undone first.
   */
  lemma GivesUpIff(s: State, ok: bool, b: Block)
    requires Reachable(s) && Shaped(s) && s.prod != Ready
    ensures Produce(s, ok, b).prod == Ready && Produce(s, ok, b).tail == s.tail
      <==> (s.prod == LoadHead && (OverLimit(s) || s.cur < 0)) || (s.prod == Grow && !ok) || s.prod == StoreNull
    ensures Produce(s, ok, b).prod == StoreNull <==> s.prod == Rewind
    ensures Produce(s, ok, b).prod == Rewind <==> s.prod == Requisition && !ok
  {
    Safety(s);
  }

  /** The insertion doubles the index exactly when the ring is full and its oldest block has not left it. */
  lemma ProbeDecides(s: State)
    requires Reachable(s) && Shaped(s) && s.prod == Probe
    ensures var r, n := s.headers[s.cur].ring, |s.hist|;
      Produce(s, true, 0).prod == Grow
      <==> s.keyed == n && n - r.origin >= r.capacity && n - r.capacity !in s.nulled
    ensures Produce(s, true, 0).prod == Grow || Produce(s, true, 0).prod == StoreKey
  {
    Safety(s);
    ProbeSees(s);
  }
}
