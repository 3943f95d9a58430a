/** What holds in every run of an explicit producer and its consumers. */
module ExplicitRuns {
  import opened Common
  import opened ExplicitIndex
  import opened ExplicitProducer
  import opened ExplicitConsumer

  // ------------------------------------------------------------- every run

  ghost predicate CanProduce(s: State, ok: bool, b: Block) {
    && (s.prod.Grow? ==> (s.slotsUsed > 0 ==> s.cur >= 0) && s.slotsUsed <= s.size)
    && (s.prod.Requisition? && ok ==> Fresh(s, b))
  }

  ghost predicate Next(s: State, s': State)
    requires Shaped(s)
  {
    || (s.prod.Ready? && s' == Enqueue(s))
    || (exists ok, b :: CanProduce(s, ok, b) && s' == Produce(s, ok, b))
    || (exists t, n: nat :: 0 <= t < |s.cons| && s.cons[t].Idle? && 0 < n && s.head + n <= s.tail && s' == Claim(s, t, n))
    || (exists t :: 0 <= t < |s.cons| && s' == Consume(s, t))
  }

  /** A new producer; allocating its first index may have failed (`cur` is then -1). */
  ghost predicate Init(s: State) {
    && Shaped(s)
    && s.tail == s.head == s.slotsUsed == s.front == 0 && s.tailBlock == None
    && s.hist == [] && s.holder == [] && s.done == {} && s.prod == Ready
    && (s.cur == -1 ==> s.headers == [])
    && (s.cur >= 0 ==> |s.headers| == 1 && s.headers[0].front == s.headers[0].top == -1 && s.headers[0].origin == 0)
    && (forall t :: 0 <= t < |s.cons| ==> s.cons[t] == Idle)
  }

  ghost predicate IsRun(run: seq<State>) {
    && run != [] && Init(run[0])
    && forall i :: 0 <= i < |run| - 1 ==> StepOk(run, i)
  }

  ghost predicate StepOk(run: seq<State>, i: nat)
    requires i < |run| - 1
  {
    Shaped(run[i]) && Next(run[i], run[i+1])
  }

  ghost predicate Reachable(s: State) {
    exists run :: IsRun(run) && run[|run|-1] == s
  }

  lemma InitInv(s: State)
    requires Init(s)
    ensures Inv(s)
  {
  }

  lemma NextKeeps(s: State, s': State)
    requires Inv(s) && Next(s, s')
    ensures Inv(s')
  {
    if s.prod.Ready? && s' == Enqueue(s) {
      EnqueueKeeps(s);
    } else if ok, b :| CanProduce(s, ok, b) && s' == Produce(s, ok, b) {
      ProduceKeeps(s, ok, b);
    } else if t, n: nat :| 0 <= t < |s.cons| && s.cons[t].Idle? && 0 < n && s.head + n <= s.tail && s' == Claim(s, t, n) {
      ClaimKeeps(s, t, n);
    } else {
      var t :| 0 <= t < |s.cons| && s' == Consume(s, t);
      ConsumeKeeps(s, t);
    }
  }

  lemma {:induction false} RunInv(run: seq<State>, i: nat)
    requires IsRun(run) && i < |run|
    ensures Inv(run[i])
  {
    if i == 0 {
      InitInv(run[0]);
    } else {
      RunInv(run, i - 1);
      assert StepOk(run, i - 1);
      NextKeeps(run[i-1], run[i]);
    }
  }

  lemma Safety(s: State)
    requires Reachable(s)
    ensures Inv(s)
  {
    var run :| IsRun(run) && run[|run|-1] == s;
    var last := |run| - 1;
    assert run[last] == s;
    RunInv(run, last);
  }

  // ------------------------------------------------------------- what it means

  /**
   The index agrees with the blocks: whatever header and front a consumer loaded,
   and however far the producer has moved on, the slot it computes holds the
   block in which its claimed, uncompleted index was enqueued.
   */
  lemma LookupFindsBlock(s: State, t: Tid)
    requires Reachable(s) && Shaped(s) && t < |s.cons| && s.cons[t].LoadBlock?
    ensures var LoadBlock(i, _, h, pos) := s.cons[t];
      && i < s.tail && i / BLOCK_SIZE < |s.hist|
      && s.headers[h].block[pos] == s.hist[i / BLOCK_SIZE]
      && s.headers[h].base[pos] == i - i % BLOCK_SIZE
  {
    Safety(s);
    var LoadBlock(i, stop, h, pos) := s.cons[t];
    assert PlaceOk(s.headers, s.hist, s.cons[t]) && HoldOk(s.holder, s.done, s.cons[t], t) && s.holder[i] == t;
    HeaderServes(s, t, h, i / BLOCK_SIZE);
  }

  /** A flag is set once: the assertion in `set_empty` and `set_many_empty` never fails. */
  lemma FlagWasClear(s: State, t: Tid)
    requires Reachable(s) && t < |s.cons| && s.cons[t].SetEmpty?
    ensures s.cons[t].i > 0 && (s.cons[t].blk, Flag(s.cons[t].i - 1)) !in s.flags
  {
    Safety(s);
    OwnElement(s, t);
  }

  /** No claimed index is forgotten: it is completed, or held by the consumer that claimed it alone. */
  lemma NothingForgotten(s: State, x: nat)
    requires Reachable(s) && x < s.head
    ensures x in s.done <==> forall t :: 0 <= t < |s.cons| ==> !Holds(s.cons[t], x)
    ensures forall t, u :: 0 <= t < |s.cons| && 0 <= u < |s.cons| && Holds(s.cons[t], x) && Holds(s.cons[u], x) ==> t == u
  {
    Safety(s);
    forall t | 0 <= t < |s.cons| && Holds(s.cons[t], x) ensures s.holder[x] == t && x !in s.done {
      assert HoldOk(s.holder, s.done, s.cons[t], t);
    }
  }

  /** A consumer with work to do always can: its next step changes its state. */
  lemma ConsumerNeverStuck(s: State, t: Tid)
    requires Reachable(s) && Shaped(s) && t < |s.cons| && !s.cons[t].Idle?
    ensures Consume(s, t).cons[t] != s.cons[t]
  {
    Safety(s);
    if s.cons[t].LoadFront? { LoadFrontKeeps(s, t); }
    if s.cons[t].SetEmpty? { OwnElement(s, t); }
  }

  // ------------------------------------------------------ the producer's answers

  /** Own steps that an enqueue still takes at most. */
  function StepsLeft(p: Producer): nat {
    match p
    case Ready => 0
    case CheckEmpty(j) => if j < BLOCK_SIZE then 9 + BLOCK_SIZE - j else 9
    case LoadHead => 8
    case Grow => 7
    case Requisition => 6
    case StoreBase => 5
    case StoreBlock => 4
    case StoreFront => 3
    case Construct => 2
    case StoreTail => 1
  }

  /** An enqueue takes a bounded number of steps, whatever the consumers do. */
  lemma EnqueueFinishes(s: State, ok: bool, b: Block)
    requires Shaped(s) && CanProduce(s, ok, b) && !s.prod.Ready?
    ensures StepsLeft(Produce(s, ok, b).prod) < StepsLeft(s.prod)
  {
    match s.prod
    case CheckEmpty(j) =>
    case LoadHead =>
    case Grow =>
    case Requisition =>
    case StoreBase =>
    case StoreBlock =>
    case StoreFront =>
    case Construct =>
    case StoreTail =>
  }

  /** The sub-queue has no room for another block within the limit on its size. */
  ghost predicate OverLimit(s: State) {
    s.limit.Some? && s.tail - s.head + BLOCK_SIZE > s.limit.value
  }

  /** An enqueue fails exactly when the loaded head leaves no room within the limit, or an allocation fails. */
  lemma GivesUpIff(s: State, ok: bool, b: Block)
    requires Reachable(s) && Shaped(s) && CanProduce(s, ok, b) && !s.prod.Ready?
    ensures Produce(s, ok, b).prod.Ready? && Produce(s, ok, b).tail == s.tail
      <==> (s.prod.LoadHead? && OverLimit(s)) || ((s.prod.Grow? || s.prod.Requisition?) && !ok)
  {
    Safety(s);
  }

  /** Where the flag checked at position j of the oldest block belongs. */
  ghost function Checked(s: State): int
    requires s.prod.CheckEmpty?
  {
    Oldest(s) * BLOCK_SIZE + BLOCK_SIZE - 1 - s.prod.j
  }

  /** The check of the oldest block turns to a new block exactly at an element that is not completed. */
  lemma CheckSees(s: State)
    requires Reachable(s) && Shaped(s) && s.prod.CheckEmpty?
    ensures 0 <= Checked(s) && s.prod.j < BLOCK_SIZE
    ensures Produce(s, true, 0).prod.LoadHead? <==> Checked(s) !in s.done
    ensures !Produce(s, true, 0).prod.LoadHead? ==>
      Produce(s, true, 0).prod == if s.prod.j + 1 < BLOCK_SIZE then CheckEmpty(s.prod.j + 1) else StoreBase
  {
    Safety(s);
    CheckedFlag(s, Oldest(s), s.prod.j);
  }

  lemma CheckedFlag(s: State, lo: nat, j: nat)
    requires Inv(s) && s.prod.CheckEmpty? && lo == Oldest(s) && j < BLOCK_SIZE
    ensures lo < |s.hist| && s.next[s.tailBlock.value] == s.hist[lo]
    ensures (s.hist[lo], j) in s.flags <==> lo * BLOCK_SIZE + BLOCK_SIZE - 1 - j in s.done
  {
    var x := lo * BLOCK_SIZE + BLOCK_SIZE - 1 - j;
    assert x / BLOCK_SIZE == lo && Flag(x) == j;
    assert FlagOk(s.hist, s.done, s.flags, x);
  }

  /** The oldest block is completed, so an enqueue that needs a block finds one. */
  ghost predicate OldestFree(s: State) {
    0 <= Oldest(s) < |s.hist| && forall x: nat :: x < (Oldest(s) + 1) * BLOCK_SIZE ==> x in s.done
  }

  /** An enqueue that found a completed block and has `used` blocks. */
  ghost predicate Reusing(s: State, used: nat) {
    && s.slotsUsed == used
    && (s.prod.CheckEmpty? || Storing(s.prod) || s.prod.Construct? || s.prod.StoreTail?)
    && (s.prod.CheckEmpty? ==> OldestFree(s))
  }

  /** While an enqueue is under way, a step is its own or a consumer's, and consumers leave the producer's state alone. */
  lemma StepKinds(s: State, s': State)
    requires Shaped(s) && Next(s, s') && !s.prod.Ready?
    ensures (exists ok, b :: CanProduce(s, ok, b) && s' == Produce(s, ok, b)) || ProducerSame(s, s')
  {
    if ok, b :| CanProduce(s, ok, b) && s' == Produce(s, ok, b) {
    } else if t, n: nat :| 0 <= t < |s.cons| && s.cons[t].Idle? && 0 < n && s.head + n <= s.tail && s' == Claim(s, t, n) {
    } else {
      var t :| 0 <= t < |s.cons| && s' == Consume(s, t);
      ConsumeSame(s, t);
    }
  }

  ghost predicate ProducerSame(s: State, s': State) {
    s'.prod == s.prod && s'.tail == s.tail && s'.slotsUsed == s.slotsUsed && s'.hist == s.hist && s.done <= s'.done
  }

  lemma ConsumeSame(s: State, t: Tid)
    requires Shaped(s) && t < |s.cons|
    ensures ProducerSame(s, Consume(s, t))
  {
  }

  lemma ReusingProduce(s: State, ok: bool, b: Block)
    requires Reachable(s) && Shaped(s) && CanProduce(s, ok, b) && Reusing(s, s.slotsUsed) && s.slotsUsed > 0
    ensures var s' := Produce(s, ok, b);
      (Reusing(s', s.slotsUsed) && s'.tail == s.tail) || Published(s, s')
  {
    if s.prod.CheckEmpty? { CheckSees(s); }
  }

  lemma ReusingNext(s: State, s': State)
    requires Reachable(s) && Shaped(s) && Next(s, s') && Reusing(s, s.slotsUsed) && s.slotsUsed > 0
    ensures (Reusing(s', s.slotsUsed) && s'.tail == s.tail) || Published(s, s')
  {
    StepKinds(s, s');
    if ok, b :| CanProduce(s, ok, b) && s' == Produce(s, ok, b) { ReusingProduce(s, ok, b); }
  }

  /** The enqueue is over and has added one element, with the blocks it had. */
  ghost predicate Published(s: State, s': State) {
    s'.prod.Ready? && s'.slotsUsed == s.slotsUsed && s'.tail == s.tail + 1
  }

  lemma ReusingStarts(s: State)
    requires Reachable(s) && s.prod.Ready? && s.tail % BLOCK_SIZE == 0 && OldestFree(s)
    ensures Reusing(Enqueue(s), s.slotsUsed) && s.slotsUsed > 0 && Enqueue(s).tail == s.tail
  {
    Safety(s);
  }

  lemma Prefix(run: seq<State>, i: nat)
    requires IsRun(run) && i < |run|
    ensures Reachable(run[i])
  {
    var pre := run[..i + 1];
    forall k | 0 <= k < |pre| - 1 ensures StepOk(pre, k) { assert StepOk(run, k); }
    assert IsRun(pre) && pre[|pre|-1] == run[i];
  }

  /**
   Blocks are recycled: an enqueue called at a block boundary when the oldest block
   is completed succeeds without another block, whatever happens meanwhile.
   */
  lemma {:induction false} ReusesCompletedBlock(run: seq<State>, i: nat, j: nat)
    requires IsRun(run) && i < j < |run| && run[i].prod.Ready? && run[i+1] == Enqueue(run[i])
    requires run[i].tail % BLOCK_SIZE == 0 && OldestFree(run[i])
    requires forall k :: i < k < j ==> !run[k].prod.Ready?
    ensures run[i].slotsUsed > 0
    ensures (Reusing(run[j], run[i].slotsUsed) && run[j].tail == run[i].tail) || Published(run[i], run[j])
    decreases j
  {
    Prefix(run, i);
    ReusingStarts(run[i]);
    if i + 1 < j {
      ReusesCompletedBlock(run, i, j - 1);
      Prefix(run, j - 1);
      assert StepOk(run, j - 1);
      ReusingNext(run[j-1], run[j]);
    }
  }
}
